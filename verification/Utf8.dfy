/** `truncate_utf8_bytes`: cutting an encoded text without cutting a character. The encoding and the
    strict decoder follow sections 3 and 4 of RFC 3629; a `char` is a Unicode scalar value. */
module Utf8 {
  import opened Options

  type byte = x: int | 0 <= x < 256

  // Base-64 digits: a number is a higher part and a last digit.

  function High(x: int): int {
    x / 64
  }

  function Low(x: int): int {
    x % 64
  }

  function Join(high: int, low: int): int {
    high * 64 + low
  }

  function EncodeChar(c: char): (r: seq<byte>)
    ensures 1 <= |r| <= 4
  {
    var x := c as int;
    if x < 0x80 then [x]
    else if x < 0x800 then [0xC0 + High(x), 0x80 + Low(x)]
    else if x < 0x10000 then [0xE0 + High(High(x)), 0x80 + Low(High(x)), 0x80 + Low(x)]
    else [0xF0 + High(High(High(x))), 0x80 + Low(High(High(x))), 0x80 + Low(High(x)), 0x80 + Low(x)]
  }

  function Encode(text: string): seq<byte> {
    if text == "" then [] else EncodeChar(text[0]) + Encode(text[1..])
  }

  predicate IsTail(b: byte) {
    0x80 <= b <= 0xBF
  }

  /** How many bytes the sequence with this first byte has; zero if none may start with it. */
  function LengthFromLead(b: byte): nat {
    if b <= 0x7F then 1
    else if 0xC2 <= b <= 0xDF then 2
    else if 0xE0 <= b <= 0xEF then 3
    else if 0xF0 <= b <= 0xF4 then 4
    else 0
  }

  /** The second byte allowed after a first byte: no overlong forms, surrogates or values beyond
      the last code point. */
  predicate SecondByteOk(lead: byte, b: byte) {
    if lead == 0xE0 then 0xA0 <= b <= 0xBF
    else if lead == 0xED then 0x80 <= b <= 0x9F
    else if lead == 0xF0 then 0x90 <= b <= 0xBF
    else if lead == 0xF4 then 0x80 <= b <= 0x8F
    else IsTail(b)
  }

  function Value2(b0: int, b1: int): int {
    Join(b0 - 0xC0, b1 - 0x80)
  }

  function Value3(b0: int, b1: int, b2: int): int {
    Join(Join(b0 - 0xE0, b1 - 0x80), b2 - 0x80)
  }

  function Value4(b0: int, b1: int, b2: int, b3: int): int {
    Join(Join(Join(b0 - 0xF0, b1 - 0x80), b2 - 0x80), b3 - 0x80)
  }

  /** The scalar value at the start of the bytes, and how many bytes it takes. */
  function DecodeFirst(bs: seq<byte>): (r: Option<(char, nat)>)
    requires bs != []
    ensures r.Some? ==> 1 <= r.value.1 <= |bs|
  {
    var n := LengthFromLead(bs[0]);
    if n == 0 || |bs| < n then None
    else if n == 1 then Some((bs[0] as char, 1))
    else if !SecondByteOk(bs[0], bs[1]) then None
    else if n == 2 then Some((Value2(bs[0], bs[1]) as char, 2))
    else if !IsTail(bs[2]) then None
    else if n == 3 then Some((Value3(bs[0], bs[1], bs[2]) as char, 3))
    else if !IsTail(bs[3]) then None
    else Some((Value4(bs[0], bs[1], bs[2], bs[3]) as char, 4))
  }

  /** `bytes.decode("utf-8")`, or nothing where that raises. */
  function Decode(bs: seq<byte>): Option<string> {
    if bs == [] then Some("")
    else
      var first := DecodeFirst(bs);
      if first.None? then None
      else
        var rest := Decode(bs[first.value.1..]);
        if rest.None? then None else Some([first.value.0] + rest.value)
  }

  // ---------------------------------------------------------------- the codec

  /** A number is joined from its parts ... */
  lemma SplitDigit(x: int)
    ensures Join(High(x), Low(x)) == x && 0 <= Low(x) < 64
  {
  }

  /** ... and the parts are read back from what was joined. */
  lemma JoinedDigit(high: int, low: int)
    requires 0 <= low < 64
    ensures High(Join(high, low)) == high && Low(Join(high, low)) == low
  {
  }

  lemma Encoded2(x: int)
    requires 0x80 <= x < 0x800
    ensures 2 <= High(x) < 32 && 0 <= Low(x) < 64 && Value2(0xC0 + High(x), 0x80 + Low(x)) == x
  {
    SplitDigit(x);
  }

  lemma Encoded3(x: int)
    requires 0x800 <= x < 0x10000
    ensures 32 <= High(x) < 1024 && 0 <= High(High(x)) < 16 && 0 <= Low(High(x)) < 64 && 0 <= Low(x) < 64
    ensures Value3(0xE0 + High(High(x)), 0x80 + Low(High(x)), 0x80 + Low(x)) == x
  {
    SplitDigit(x);
    SplitDigit(High(x));
  }

  lemma Encoded4(x: int)
    requires 0x10000 <= x < 0x110000
    ensures 1024 <= High(x) < 0x4400 && 16 <= High(High(x)) < 272 && 0 <= High(High(High(x))) < 5
    ensures 0 <= Low(High(High(x))) < 64 && 0 <= Low(High(x)) < 64 && 0 <= Low(x) < 64
    ensures Value4(0xF0 + High(High(High(x))), 0x80 + Low(High(High(x))), 0x80 + Low(High(x)), 0x80 + Low(x)) == x
  {
    SplitDigit(x);
    SplitDigit(High(x));
    SplitDigit(High(High(x)));
  }

  lemma FirstOfEncoded(c: char, more: seq<byte>)
    ensures DecodeFirst(EncodeChar(c) + more) == Some((c, |EncodeChar(c)|))
  {
    var e := EncodeChar(c);
    var bs := e + more;
    assert forall i | 0 <= i < |e| :: bs[i] == e[i];
    if |e| == 2 {
      Encoded2(c as int);
    } else if |e| == 3 {
      Encoded3(c as int);
      SplitDigit(High(c as int));
    } else if |e| == 4 {
      Encoded4(c as int);
      SplitDigit(High(High(c as int)));
    }
  }

  /** `head`, if the bytes after it decode to anything, followed by what they decode to. */
  function Prepended(head: string, tail: Option<string>): Option<string> {
    if tail.None? then None else Some(head + tail.value)
  }

  /** One encoded character in front of any bytes. */
  lemma DecodeAfterChar(c: char, more: seq<byte>)
    ensures Decode(EncodeChar(c) + more) == Prepended([c], Decode(more))
  {
    FirstOfEncoded(c, more);
    assert (EncodeChar(c) + more)[|EncodeChar(c)|..] == more;
  }

  lemma PrependedTwice(c: char, head: string, tail: Option<string>)
    ensures Prepended([c], Prepended(head, tail)) == Prepended([c] + head, tail)
  {
    if tail.Some? {
      assert [c] + (head + tail.value) == ([c] + head) + tail.value;
    }
  }

  /** What follows an encoded text is decoded by itself. */
  lemma {:induction false} DecodeAfterEncoded(text: string, more: seq<byte>)
    ensures Decode(Encode(text) + more) == Prepended(text, Decode(more))
  {
    if text == "" {
      assert Encode(text) + more == more;
      assert Decode(more).Some? ==> "" + Decode(more).value == Decode(more).value;
    } else {
      var later := Encode(text[1..]) + more;
      assert Encode(text) + more == EncodeChar(text[0]) + later;
      DecodeAfterChar(text[0], later);
      DecodeAfterEncoded(text[1..], more);
      PrependedTwice(text[0], text[1..], Decode(more));
      assert [text[0]] + text[1..] == text;
    }
  }

  /** Decoding undoes encoding. */
  lemma DecodeEncode(text: string)
    ensures Decode(Encode(text)) == Some(text)
  {
    DecodeAfterEncoded(text, []);
    assert Encode(text) + [] == Encode(text);
    assert text + "" == text;
  }

  lemma Digits3(b0: int, b1: int, b2: int)
    requires 0x80 <= b1 < 0xC0 && 0x80 <= b2 < 0xC0
    ensures var v := Value3(b0, b1, b2);
            High(High(v)) == b0 - 0xE0 && Low(High(v)) == b1 - 0x80 && Low(v) == b2 - 0x80
  {
    JoinedDigit(b0 - 0xE0, b1 - 0x80);
    JoinedDigit(Join(b0 - 0xE0, b1 - 0x80), b2 - 0x80);
  }

  lemma Digits4(b0: int, b1: int, b2: int, b3: int)
    requires 0x80 <= b1 < 0xC0 && 0x80 <= b2 < 0xC0 && 0x80 <= b3 < 0xC0
    ensures var v := Value4(b0, b1, b2, b3);
            && High(High(High(v))) == b0 - 0xF0 && Low(High(High(v))) == b1 - 0x80
            && Low(High(v)) == b2 - 0x80 && Low(v) == b3 - 0x80
  {
    var front := Join(b0 - 0xF0, b1 - 0x80);
    JoinedDigit(b0 - 0xF0, b1 - 0x80);
    JoinedDigit(front, b2 - 0x80);
    JoinedDigit(Join(front, b2 - 0x80), b3 - 0x80);
  }

  /** The encoder's bytes for a character whose digits are these. */
  lemma EncodedDigits4(c: char, b0: byte, b1: byte, b2: byte, b3: byte)
    requires c as int == Value4(b0, b1, b2, b3) && c as int >= 0x10000
    requires 0x80 <= b1 < 0xC0 && 0x80 <= b2 < 0xC0 && 0x80 <= b3 < 0xC0
    ensures EncodeChar(c) == [b0, b1, b2, b3]
  {
    Digits4(b0, b1, b2, b3);
  }

  lemma EncodedDigits3(c: char, b0: byte, b1: byte, b2: byte)
    requires c as int == Value3(b0, b1, b2) && 0x800 <= c as int < 0x10000
    requires 0x80 <= b1 < 0xC0 && 0x80 <= b2 < 0xC0
    ensures EncodeChar(c) == [b0, b1, b2]
  {
    Digits3(b0, b1, b2);
  }

  lemma EncodedDigits2(c: char, b0: byte, b1: byte)
    requires c as int == Value2(b0, b1) && 0x80 <= c as int < 0x800 && 0x80 <= b1 < 0xC0
    ensures EncodeChar(c) == [b0, b1]
  {
    JoinedDigit(b0 - 0xC0, b1 - 0x80);
  }

  /** The decoder is strict: what it accepts as a character is that character's encoding. */
  lemma FirstIsEncoded(bs: seq<byte>)
    requires bs != [] && DecodeFirst(bs).Some?
    ensures EncodeChar(DecodeFirst(bs).value.0) == bs[..DecodeFirst(bs).value.1]
  {
    var c, n := DecodeFirst(bs).value.0, DecodeFirst(bs).value.1;
    if n == 2 {
      EncodedDigits2(c, bs[0], bs[1]);
    } else if n == 3 {
      EncodedDigits3(c, bs[0], bs[1], bs[2]);
    } else if n == 4 {
      EncodedDigits4(c, bs[0], bs[1], bs[2], bs[3]);
    }
  }

  lemma DecodeUnfolds(bs: seq<byte>, first: (char, nat))
    requires bs != [] && DecodeFirst(bs) == Some(first) && Decode(bs).Some?
    ensures Decode(bs[first.1..]).Some? && Decode(bs) == Some([first.0] + Decode(bs[first.1..]).value)
  {
  }

  lemma EncodeFolds(c: char, t: string, front: seq<byte>, back: seq<byte>)
    requires EncodeChar(c) == front && Encode(t) == back
    ensures Encode([c] + t) == front + back
  {
    assert ([c] + t)[1..] == t;
  }

  /** Encoding undoes decoding: nothing but an encoded text decodes. */
  lemma {:induction false} EncodeDecode(bs: seq<byte>, text: string)
    requires Decode(bs) == Some(text)
    ensures Encode(text) == bs
  {
    if bs != [] {
      var first := DecodeFirst(bs).value;
      DecodeUnfolds(bs, first);
      FirstIsEncoded(bs);
      var back := bs[first.1..];
      var rest := Decode(back).value;
      EncodeDecode(back, rest);
      EncodeFolds(first.0, rest, bs[..first.1], back);
      assert bs[..first.1] + back == bs;
    }
  }

  /** A character that is cut inside does not decode. */
  lemma CutCharFails(c: char, k: nat)
    requires 0 < k < |EncodeChar(c)|
    ensures Decode(EncodeChar(c)[..k]) == None
  {
    FirstOfEncoded(c, []);
    assert EncodeChar(c) + [] == EncodeChar(c);
    assert LengthFromLead(EncodeChar(c)[0]) == |EncodeChar(c)|;
  }

  lemma EncodeConcat(s: string, t: string)
    ensures Encode(s + t) == Encode(s) + Encode(t)
  {
    if s == "" {
      assert s + t == t;
    } else {
      assert (s + t)[1..] == s[1..] + t;
      EncodeConcat(s[1..], t);
    }
  }

  // ---------------------------------------------------------------- truncation

  /** How many characters fit. */
  function FittingCount(text: string, limit: nat): (n: nat)
    ensures n <= |text|
  {
    if text == "" || |EncodeChar(text[0])| > limit then 0
    else 1 + FittingCount(text[1..], limit - |EncodeChar(text[0])|)
  }

  function FittingPrefix(text: string, limit: nat): string {
    text[..FittingCount(text, limit)]
  }

  /** The fitting prefix fits, and one more character would not. */
  lemma {:induction false} FittingIsLongest(text: string, limit: nat)
    ensures var r := FittingPrefix(text, limit);
            |Encode(r)| <= limit && (r != text ==> |Encode(r)| + |EncodeChar(text[|r|])| > limit)
  {
    if text != "" && |EncodeChar(text[0])| <= limit {
      var rest := text[1..];
      FittingIsLongest(rest, limit - |EncodeChar(text[0])|);
      var n := FittingCount(rest, limit - |EncodeChar(text[0])|);
      assert text[..n + 1][1..] == rest[..n];
      assert rest[..n] == rest ==> text[..n + 1] == text;
    }
  }

  /** Bytes kept beyond the fitting prefix, but short of the next character, do not decode; the
      fitting prefix itself does. */
  lemma PrefixDecodes(text: string, limit: nat, k: nat)
    requires var r := FittingPrefix(text, limit); |Encode(r)| <= k <= limit && k < |Encode(text)|
    ensures var r := FittingPrefix(text, limit);
            Decode(Encode(text)[..k]) == if k == |Encode(r)| then Some(r) else None
  {
    FittingIsLongest(text, limit);
    var r := FittingPrefix(text, limit);
    assert r != text;
    var c, later := text[|r|], text[|r| + 1..];
    assert text == r + ([c] + later);
    EncodeConcat(r, [c] + later);
    assert ([c] + later)[1..] == later;
    var j := k - |Encode(r)|;
    assert Encode(text) == Encode(r) + (EncodeChar(c) + Encode(later));
    assert Encode(text)[..k] == Encode(r) + EncodeChar(c)[..j];
    DecodeAfterEncoded(r, EncodeChar(c)[..j]);
    if j > 0 { CutCharFails(c, j); } else { assert r + "" == r; }
  }

  /** `truncate_utf8_bytes`: the longest prefix of whole characters whose encoding fits the limit;
      at most three bytes are dropped after the cut. */
  method TruncateUtf8Bytes(text: string, limit: nat) returns (r: string, ghost dropped: nat)
    ensures r <= text && |Encode(r)| <= limit
    ensures forall n | |r| < n <= |text| :: |Encode(text[..n])| > limit
    ensures dropped <= 3
    ensures r != text ==> |Encode(r)| == limit - dropped
  {
    var encoded := Encode(text);
    dropped := 0;
    if |encoded| <= limit {
      return text, 0;
    }
    FittingIsLongest(text, limit);
    r := FittingPrefix(text, limit);
    assert r != text;
    LongerDoesNotFit(text, limit);
    var truncated := encoded[..limit];
    while Decode(truncated).None?
      invariant truncated == encoded[..|truncated|] && |Encode(FittingPrefix(text, limit))| <= |truncated| <= limit
      invariant dropped == limit - |truncated|
      decreases |truncated|
    {
      PrefixDecodes(text, limit, |truncated|);
      truncated := truncated[..|truncated| - 1];
      dropped := dropped + 1;
    }
    PrefixDecodes(text, limit, |truncated|);
    r := Decode(truncated).value;
  }

  lemma LongerDoesNotFit(text: string, limit: nat)
    requires FittingPrefix(text, limit) != text
    ensures forall n | |FittingPrefix(text, limit)| < n <= |text| :: |Encode(text[..n])| > limit
  {
    FittingIsLongest(text, limit);
    var r := FittingPrefix(text, limit);
    forall n | |r| < n <= |text| ensures |Encode(text[..n])| > limit {
      assert text[..n] == r + ([text[|r|]] + text[|r| + 1..n]);
      EncodeConcat(r, [text[|r|]] + text[|r| + 1..n]);
    }
  }
}
