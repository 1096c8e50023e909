/**
 UTF-8 as in section 3 of RFC 3629: encoding of texts, and the decoder that leaves out
 whatever is not a whole character, with what it makes of an encoding cut at any byte.
 */
module Utf8 {
  import opened Wrappers

  type Byte = b: int | 0 <= b < 256

  function EncodeChar(c: char): (bytes: seq<Byte>)
    ensures 1 <= |bytes| <= 4
  {
    var n := c as int;
    if n < 0x80 then [n]
    else if n < 0x800 then [0xC0 + n / 64, 0x80 + n % 64]
    else if n < 0x1_0000 then [0xE0 + n / 4096, 0x80 + n / 64 % 64, 0x80 + n % 64]
    else [0xF0 + n / 262144, 0x80 + n / 4096 % 64, 0x80 + n / 64 % 64, 0x80 + n % 64]
  }

  function Encode(text: string): seq<Byte> {
    if text == [] then [] else EncodeChar(text[0]) + Encode(text[1..])
  }

  function Width(c: char): nat { |EncodeChar(c)| }

  /** The number of bytes a text takes. */
  function Size(text: string): nat {
    if text == [] then 0 else Width(text[0]) + Size(text[1..])
  }

  predicate Continuation(b: Byte) { 0x80 <= b < 0xC0 }

  function Two(a: int, b: int): int { (a - 0xC0) * 64 + (b - 0x80) }

  function Three(a: int, b: int, c: int): int { (a - 0xE0) * 4096 + (b - 0x80) * 64 + (c - 0x80) }

  function Four(a: int, b: int, c: int, d: int): int {
    (a - 0xF0) * 262144 + (b - 0x80) * 4096 + (c - 0x80) * 64 + (d - 0x80)
  }

  /** The code point the first bytes spell, if they spell one in its shortest form. */
  function CodePoint(b: seq<Byte>): Option<int> {
    if b == [] then None
    else if b[0] < 0x80 then Some(b[0])
    else if 0xC0 <= b[0] < 0xE0 && |b| >= 2 && Continuation(b[1]) then
      var n := Two(b[0], b[1]);
      if n >= 0x80 then Some(n) else None
    else if 0xE0 <= b[0] < 0xF0 && |b| >= 3 && Continuation(b[1]) && Continuation(b[2]) then
      var n := Three(b[0], b[1], b[2]);
      if n >= 0x800 && !(0xD800 <= n < 0xE000) then Some(n) else None
    else if 0xF0 <= b[0] < 0xF8 && |b| >= 4 && Continuation(b[1]) && Continuation(b[2]) && Continuation(b[3]) then
      var n := Four(b[0], b[1], b[2], b[3]);
      if 0x1_0000 <= n < 0x11_0000 then Some(n) else None
    else None
  }

  function FirstChar(b: seq<Byte>): Option<char> {
    var n := CodePoint(b);
    if n.None? then None
    else
      CodePointIsScalar(b);
      Some(n.value as char)
  }

  lemma CodePointIsScalar(b: seq<Byte>)
    ensures CodePoint(b).Some? ==>
              var n := CodePoint(b).value; 0 <= n < 0xD800 || 0xE000 <= n < 0x11_0000
  {
  }

  lemma SplitTwo(h: int, l: int)
    requires 0 <= l < 64
    ensures (h * 64 + l) / 64 == h && (h * 64 + l) % 64 == l
  {
  }

  /** The first bytes are the encoding of the character read from them, and of no other. */
  lemma FirstCharIsEncoded(b: seq<Byte>)
    ensures FirstChar(b).Some? ==> EncodeChar(FirstChar(b).value) <= b
  {
    if CodePoint(b).Some? {
      CodePointIsScalar(b);
      if b[0] < 0x80 {
      } else if b[0] < 0xE0 {
        SplitTwo(b[0] - 0xC0, b[1] - 0x80);
      } else {
        hide EncodeChar;
        LongIsEncoded(b);
      }
    }
  }

  lemma LongIsEncoded(b: seq<Byte>)
    requires FirstChar(b).Some? && b[0] >= 0xE0
    ensures EncodeChar(FirstChar(b).value) <= b
  {
    if b[0] < 0xF0 {
      ThreeSplits(b[0], b[1], b[2]);
      hide Four;
    } else {
      FourSplits(b[0], b[1], b[2], b[3]);
      hide Three;
    }
  }

  lemma ThreeSplits(a: Byte, b: Byte, c: Byte)
    requires Continuation(b) && Continuation(c)
    ensures var n := Three(a, b, c);
            n / 4096 == a - 0xE0 && n / 64 % 64 == b - 0x80 && n % 64 == c - 0x80
  {
    var h: int := a - 0xE0;
    var upper := h * 64 + (b - 0x80);
    SplitTwo(upper, c - 0x80);
    SplitTwo(h, b - 0x80);
  }

  lemma FourSplits(a: Byte, b: Byte, c: Byte, d: Byte)
    requires a >= 0xF0 && Continuation(b) && Continuation(c) && Continuation(d)
    ensures var n := Four(a, b, c, d);
            && n / 262144 == a - 0xF0 && n / 4096 % 64 == b - 0x80
            && n / 64 % 64 == c - 0x80 && n % 64 == d - 0x80
  {
    var upper: nat := (a - 0xF0) * 64 + (b - 0x80);
    var middle: nat := upper * 64 + (c - 0x80);
    var n: nat := middle * 64 + (d - 0x80);
    assert n == Four(a, b, c, d);
    SplitTwo(middle, d - 0x80);
    SplitTwo(upper, c - 0x80);
    SplitTwo(a - 0xF0, b - 0x80);
    ThirdGroup(n);
    FourthGroup(n, n / 4096);
  }

  lemma ThirdGroup(n: nat)
    ensures n / 4096 == n / 64 / 64
  {
    var q := n / 64;
    assert n == q * 64 + n % 64 && q == q / 64 * 64 + q % 64;
  }

  lemma PointsJoin(n: nat)
    ensures Two(0xC0 + n / 64, 0x80 + n % 64) == n
    ensures Three(0xE0 + n / 4096, 0x80 + n / 64 % 64, 0x80 + n % 64) == n
    ensures Four(0xF0 + n / 262144, 0x80 + n / 4096 % 64, 0x80 + n / 64 % 64, 0x80 + n % 64) == n
  {
    var q := n / 64;
    ThirdGroup(n);
    assert n == q * 64 + n % 64;
    assert q == q / 64 * 64 + q % 64;
    FourthGroup(n, q / 64);
  }

  lemma FourthGroup(n: nat, r: nat)
    requires r == n / 4096
    ensures n / 262144 == r / 64 && r == r / 64 * 64 + r % 64
  {
  }

  lemma EncodedIsFirstChar(c: char, rest: seq<Byte>)
    ensures FirstChar(EncodeChar(c) + rest) == Some(c)
  {
    hide Two, Three, Four;
    PointsJoin(c as int);
    var b, bytes := EncodeChar(c) + rest, EncodeChar(c);
    assert forall k | 0 <= k < |bytes| :: b[k] == bytes[k];
    LeadAndContinuations(c);
    assert CodePoint(b) == Some(c as int);
  }

  /** Decoding that ignores errors: bytes that start no character are passed over. */
  function DecodeIgnore(b: seq<Byte>): string
    decreases |b|
  {
    if b == [] then ""
    else if FirstChar(b).None? then DecodeIgnore(b[1..])
    else
      FirstCharIsEncoded(b);
      [FirstChar(b).value] + DecodeIgnore(b[Width(FirstChar(b).value)..])
  }

  lemma {:induction false} SizeIsEncodedLength(text: string)
    ensures |Encode(text)| == Size(text)
  {
    if text != [] {
      SizeIsEncodedLength(text[1..]);
    }
  }

  lemma {:induction false} SizeOfConcat(s: string, t: string)
    ensures Size(s + t) == Size(s) + Size(t)
  {
    if s == [] {
      assert s + t == t;
    } else {
      assert (s + t)[1..] == s[1..] + t;
      SizeOfConcat(s[1..], t);
    }
  }

  /** The text without the characters that its first `k` bytes touch. */
  function DropBytes(text: string, k: nat): string {
    if k == 0 || text == [] then text
    else DropBytes(text[1..], if k > Width(text[0]) then k - Width(text[0]) else 0)
  }

  /** The characters that lie wholly within the first `k` bytes. */
  function PrefixWithin(text: string, k: nat): (prefix: string)
    ensures |prefix| <= |text| && prefix == text[..|prefix|]
  {
    if text == [] || Width(text[0]) > k then ""
    else [text[0]] + PrefixWithin(text[1..], k - Width(text[0]))
  }

  lemma LeadAndContinuations(c: char)
    ensures !Continuation(EncodeChar(c)[0])
    ensures forall k | 1 <= k < Width(c) :: Continuation(EncodeChar(c)[k])
  {
  }

  lemma {:induction false} ContinuationsAreIgnored(tail: seq<Byte>, b: seq<Byte>)
    requires forall k | 0 <= k < |tail| :: Continuation(tail[k])
    ensures DecodeIgnore(tail + b) == DecodeIgnore(b)
  {
    if tail == [] {
      assert tail + b == b;
    } else {
      assert (tail + b)[1..] == tail[1..] + b;
      ContinuationsAreIgnored(tail[1..], b);
    }
  }

  /** A character cut short reads as nothing. */
  lemma CutCharIsIgnored(c: char, k: nat)
    requires k < Width(c)
    ensures DecodeIgnore(EncodeChar(c)[..k]) == ""
  {
    LeadAndContinuations(c);
    var cut := EncodeChar(c)[..k];
    if k > 0 {
      assert FirstChar(cut).None?;
      ContinuationsAreIgnored(cut[1..], []);
      assert cut[1..] + [] == cut[1..];
    }
  }

  lemma DecodeStep(c: char, rest: seq<Byte>)
    ensures DecodeIgnore(EncodeChar(c) + rest) == [c] + DecodeIgnore(rest)
  {
    EncodedIsFirstChar(c, rest);
    assert (EncodeChar(c) + rest)[Width(c)..] == rest;
  }

  lemma {:induction false} DecodeUndoesEncode(text: string)
    ensures DecodeIgnore(Encode(text)) == text
  {
    if text != [] {
      DecodeStep(text[0], Encode(text[1..]));
      DecodeUndoesEncode(text[1..]);
    }
  }

  /** Reading an encoding from byte `k` on gives the characters that start at or after it. */
  lemma {:induction false} DecodeFromByte(text: string, k: nat)
    requires k <= |Encode(text)|
    ensures DecodeIgnore(Encode(text)[k..]) == DropBytes(text, k)
  {
    if k == 0 {
      assert Encode(text)[0..] == Encode(text);
      DecodeUndoesEncode(text);
    } else {
      var head, tail := EncodeChar(text[0]), Encode(text[1..]);
      if k >= |head| {
        assert Encode(text)[k..] == tail[k - |head|..];
        DecodeFromByte(text[1..], k - |head|);
      } else {
        assert Encode(text)[k..] == head[k..] + tail;
        LeadAndContinuations(text[0]);
        ContinuationsAreIgnored(head[k..], tail);
        DecodeUndoesEncode(text[1..]);
      }
    }
  }

  /** Reading the first `k` bytes of an encoding gives the characters that end within them. */
  lemma {:induction false} DecodeUpToByte(text: string, k: nat)
    requires k <= |Encode(text)|
    ensures DecodeIgnore(Encode(text)[..k]) == PrefixWithin(text, k)
  {
    hide EncodeChar, FirstChar;
    if text != [] {
      var head, tail := EncodeChar(text[0]), Encode(text[1..]);
      if k < |head| {
        assert Encode(text)[..k] == head[..k];
        CutCharIsIgnored(text[0], k);
      } else {
        assert Encode(text)[..k] == head + tail[..k - |head|];
        DecodeStep(text[0], tail[..k - |head|]);
        DecodeUpToByte(text[1..], k - |head|);
      }
    }
  }

  /** Decoding that refuses bytes that are no UTF-8. */
  function DecodeStrict(b: seq<Byte>): Option<string>
    decreases |b|
  {
    if b == [] then Some("")
    else if FirstChar(b).None? then None
    else
      FirstCharIsEncoded(b);
      var rest := DecodeStrict(b[Width(FirstChar(b).value)..]);
      if rest.None? then None else Some([FirstChar(b).value] + rest.value)
  }

  /** It reads a text exactly from the encoding of the text. */
  lemma {:induction false} StrictReadsEncodings(b: seq<Byte>, text: string)
    ensures DecodeStrict(b) == Some(text) <==> b == Encode(text)
    decreases |b|
  {
    hide FirstChar, EncodeChar;
    if text != "" && b == Encode(text) {
      EncodedIsFirstChar(text[0], Encode(text[1..]));
      assert b[Width(text[0])..] == Encode(text[1..]);
      StrictReadsEncodings(b[Width(text[0])..], text[1..]);
      assert text == [text[0]] + text[1..];
    } else if text != "" && b != [] && FirstChar(b) == Some(text[0]) {
      FirstCharIsEncoded(b);
      StrictReadsEncodings(b[Width(text[0])..], text[1..]);
      assert text == [text[0]] + text[1..];
      assert b == EncodeChar(text[0]) + b[Width(text[0])..];
    }
  }

  function Concat(parts: seq<string>): string {
    if parts == [] then "" else parts[0] + Concat(parts[1..])
  }

  lemma {:induction false} ConcatOfConcat(parts: seq<string>, more: seq<string>)
    ensures Concat(parts + more) == Concat(parts) + Concat(more)
  {
    if parts == [] {
      assert parts + more == more;
    } else {
      assert (parts + more)[1..] == parts[1..] + more;
      ConcatOfConcat(parts[1..], more);
    }
  }

  lemma ConcatOfOne(part: string)
    ensures Concat([part]) == part
  {
    assert Concat([part]) == part + Concat([]);
  }
}
