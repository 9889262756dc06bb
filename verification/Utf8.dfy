/** UTF-8 (RFC 3629): encoding, strict decoding, and which byte prefixes decode.
    Text is a sequence of Unicode scalar values. */
module Utf8 {
  import opened Common

  /** Bytes one character takes. */
  function Width(c: char): (n: nat)
    ensures 1 <= n <= 4
  {
    var x := c as int;
    if x < 0x80 then 1 else if x < 0x800 then 2 else if x < 0x1_0000 then 3 else 4
  }

  function EncodeChar(c: char): (bs: seq<byte>)
    ensures |bs| == Width(c)
  {
    var x := c as int;
    if x < 0x80 then [x]
    else if x < 0x800 then [0xC0 + x / 64, 0x80 + x % 64]
    else if x < 0x1_0000 then [0xE0 + x / 64 / 64, 0x80 + x / 64 % 64, 0x80 + x % 64]
    else [0xF0 + x / 64 / 64 / 64, 0x80 + x / 64 / 64 % 64, 0x80 + x / 64 % 64, 0x80 + x % 64]
  }

  function Encode(s: string): seq<byte> {
    if s == "" then [] else EncodeChar(s[0]) + Encode(s[1..])
  }

  /** The number made of groups of six bits. */
  function Bits(a: int, b: int, c: int, d: int): int { ((a * 64 + b) * 64 + c) * 64 + d }

  predicate Continuation(b: byte) { 0x80 <= b <= 0xBF }

  /** The character a byte string begins with, and its width: the well-formed sequences
      of section 4 of RFC 3629, so no overlong forms and no surrogates. */
  function DecodeFirst(bs: seq<byte>): (r: Option<(char, nat)>)
    ensures r.Some? ==> 1 <= r.value.1 <= |bs|
  {
    if bs == [] then None
    else if bs[0] < 0x80 then Some((bs[0] as char, 1))
    else if 0xC2 <= bs[0] <= 0xDF && |bs| >= 2 && Continuation(bs[1]) then
      Some((Bits(0, 0, bs[0] - 0xC0, bs[1] - 0x80) as char, 2))
    else if 0xE0 <= bs[0] <= 0xEF && |bs| >= 3 && Continuation(bs[1]) && Continuation(bs[2])
      && (bs[0] == 0xE0 ==> bs[1] >= 0xA0) && (bs[0] == 0xED ==> bs[1] <= 0x9F) then
      Some((Bits(0, bs[0] - 0xE0, bs[1] - 0x80, bs[2] - 0x80) as char, 3))
    else if 0xF0 <= bs[0] <= 0xF4 && |bs| >= 4 && Continuation(bs[1]) && Continuation(bs[2]) && Continuation(bs[3])
      && (bs[0] == 0xF0 ==> bs[1] >= 0x90) && (bs[0] == 0xF4 ==> bs[1] <= 0x8F) then
      Some((Bits(bs[0] - 0xF0, bs[1] - 0x80, bs[2] - 0x80, bs[3] - 0x80) as char, 4))
    else None
  }

  /** `bytes.decode("utf-8")`, None for `UnicodeDecodeError`. */
  function Decode(bs: seq<byte>): Option<string>
    decreases |bs|
  {
    if bs == [] then Some("")
    else
      match DecodeFirst(bs)
      case None => None
      case Some((c, n)) =>
        match Decode(bs[n..])
        case None => None
        case Some(rest) => Some([c] + rest)
  }

  lemma DecodeFirstEncoded(c: char, tail: seq<byte>)
    ensures DecodeFirst(EncodeChar(c) + tail) == Some((c, Width(c)))
  {
    var x := c as int;
    var e := EncodeChar(c);
    var bs := e + tail;
    assert forall i :: 0 <= i < |e| ==> bs[i] == e[i];
    assert x == 64 * (x / 64) + x % 64;
    assert x / 64 == 64 * (x / 64 / 64) + x / 64 % 64;
    assert x / 64 / 64 == 64 * (x / 64 / 64 / 64) + x / 64 / 64 % 64;
  }

  /** A character cut short does not decode. */
  lemma CutCharFails(c: char, n: nat)
    requires 0 < n < Width(c)
    ensures Decode(EncodeChar(c)[..n]) == None
  {
    assert DecodeFirst(EncodeChar(c)[..n]) == None;
  }

  lemma DecodeEncodedChar(c: char, tail: seq<byte>)
    ensures Decode(EncodeChar(c) + tail) ==
            match Decode(tail) case None => None case Some(rest) => Some([c] + rest)
  {
    hide EncodeChar, DecodeFirst;
    DecodeFirstEncoded(c, tail);
    assert (EncodeChar(c) + tail)[Width(c)..] == tail;
  }

  /** Length of the longest run of whole characters that fits in `n` bytes. */
  function Fitting(s: string, n: int): (k: nat)
    ensures k <= |s|
  {
    if s == "" || Width(s[0]) > n then 0 else 1 + Fitting(s[1..], n - Width(s[0]))
  }

  lemma {:induction false} FittingIsLongest(s: string, n: nat)
    ensures |Encode(s[..Fitting(s, n)])| <= n
    ensures forall k :: Fitting(s, n) < k <= |s| ==> |Encode(s[..k])| > n
  {
    if s != "" {
      forall k | 0 < k <= |s| ensures |Encode(s[..k])| == Width(s[0]) + |Encode(s[1..][..k - 1])| {
        assert s[..k][1..] == s[1..][..k - 1];
      }
      if Width(s[0]) <= n {
        FittingIsLongest(s[1..], n - Width(s[0]));
      }
    }
  }

  /** The heart of decode-and-trim: a byte prefix of encoded text decodes exactly when it
      ends on a character boundary, and then to the characters before that boundary. */
  lemma {:induction false} PrefixDecodes(s: string, n: nat)
    requires n <= |Encode(s)|
    ensures var k := Fitting(s, n);
            Decode(Encode(s)[..n]) == if |Encode(s[..k])| == n then Some(s[..k]) else None
    decreases |s|
  {
    hide EncodeChar, DecodeFirst;
    if s == "" || n == 0 {
      assert Encode(s)[..n] == [] && Fitting(s, n) == 0;
      assert Encode(s[..0]) == [];
    } else {
      var c, rest, w := s[0], s[1..], Width(s[0]);
      if n < w {
        assert Encode(s)[..n] == EncodeChar(c)[..n];
        CutCharFails(c, n);
        assert Encode(s[..0]) == [];
      } else {
        assert Encode(s)[..n] == EncodeChar(c) + Encode(rest)[..n - w];
        DecodeEncodedChar(c, Encode(rest)[..n - w]);
        PrefixDecodes(rest, n - w);
        var k := Fitting(rest, n - w);
        assert s[..k + 1] == [c] + rest[..k] && s[..k + 1][1..] == rest[..k];
      }
    }
  }

  /** Encoding then decoding gives the text back. */
  lemma RoundTrip(s: string)
    ensures Decode(Encode(s)) == Some(s)
  {
    hide Encode, Decode, Fitting;
    FittingIsLongest(s, |Encode(s)|);
    PrefixDecodes(s, |Encode(s)|);
    assert s[..|s|] == s && Encode(s)[..|Encode(s)|] == Encode(s);
    assert Fitting(s, |Encode(s)|) == |s|;
  }

  lemma {:induction false} EncodeConcat(a: string, b: string)
    ensures Encode(a + b) == Encode(a) + Encode(b)
  {
    if a == "" {
      assert a + b == b;
    } else {
      assert (a + b)[1..] == a[1..] + b;
      EncodeConcat(a[1..], b);
    }
  }

  lemma TwoGroups(a: int, b: int)
    requires 0 <= b < 64
    ensures Bits(0, 0, a, b) / 64 == a && Bits(0, 0, a, b) % 64 == b
  {
  }

  lemma ThreeGroups(a: int, b: int, c: int)
    requires 0 <= b < 64 && 0 <= c < 64
    ensures var x := Bits(0, a, b, c); x / 64 / 64 == a && x / 64 % 64 == b && x % 64 == c
  {
    assert Bits(0, a, b, c) / 64 == a * 64 + b;
  }

  lemma FourGroups(a: int, b: int, c: int, d: int)
    requires 0 <= b < 64 && 0 <= c < 64 && 0 <= d < 64
    ensures var x := Bits(a, b, c, d); x / 64 / 64 / 64 == a && x / 64 / 64 % 64 == b && x / 64 % 64 == c && x % 64 == d
  {
    assert Bits(a, b, c, d) / 64 == (a * 64 + b) * 64 + c;
    assert ((a * 64 + b) * 64 + c) / 64 == a * 64 + b;
  }

  /** What is read at the front is exactly the encoding of the character read. */
  lemma FirstIsEncoded(bs: seq<byte>)
    requires DecodeFirst(bs).Some?
    ensures EncodeChar(DecodeFirst(bs).value.0) == bs[..DecodeFirst(bs).value.1]
  {
    hide Bits;
    var n := DecodeFirst(bs).value.1;
    if n == 1 {
    } else if n == 2 {
      TwoGroups(bs[0] - 0xC0, bs[1] - 0x80);
      BitsAre(0, 0, bs[0] - 0xC0, bs[1] - 0x80);
    } else if n == 3 {
      ThreeGroups(bs[0] - 0xE0, bs[1] - 0x80, bs[2] - 0x80);
      BitsAre(0, bs[0] - 0xE0, bs[1] - 0x80, bs[2] - 0x80);
    } else {
      FourGroups(bs[0] - 0xF0, bs[1] - 0x80, bs[2] - 0x80, bs[3] - 0x80);
      BitsAre(bs[0] - 0xF0, bs[1] - 0x80, bs[2] - 0x80, bs[3] - 0x80);
    }
  }

  lemma BitsAre(a: int, b: int, c: int, d: int)
    ensures Bits(a, b, c, d) == 262144 * a + 4096 * b + 64 * c + d
  {
  }

  /** And decoding then encoding gives the bytes back: there are no two spellings of a text. */
  lemma {:induction false} DecodingIsStrict(bs: seq<byte>)
    ensures Decode(bs).Some? ==> Encode(Decode(bs).value) == bs
    decreases |bs|
  {
    hide DecodeFirst, EncodeChar;
    if bs != [] && DecodeFirst(bs).Some? {
      var n := DecodeFirst(bs).value.1;
      FirstIsEncoded(bs);
      DecodingIsStrict(bs[n..]);
      assert bs == bs[..n] + bs[n..];
      if Decode(bs).Some? {
        var rest := Decode(bs[n..]).value;
        assert Decode(bs).value[1..] == rest;
      }
    }
  }
}
