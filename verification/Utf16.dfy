/** What the lengths of captions count: the code units of the UTF-16 encoding of RFC 2781. */
module Utf16 {
  import opened Common
  import Captions

  /** A character as one code unit, or as a pair of surrogates (section 2.1 of RFC 2781). */
  function EncodeChar(c: char): (us: seq<nat>)
    ensures us != []
  {
    var u := c as int;
    if u < 0x1_0000 then [u] else [0xD800 + (u - 0x1_0000) / 0x400, 0xDC00 + (u - 0x1_0000) % 0x400]
  }

  /** `text.encode("utf-16-le")`, two bytes to a unit. */
  function Encode(s: string): seq<nat> {
    if s == "" then [] else Encode(s[..|s| - 1]) + EncodeChar(s[|s| - 1])
  }

  /** The last character of code units, and how many of them it takes (section 2.2 of RFC 2781). */
  function DecodeLast(us: seq<nat>): (r: Option<(char, nat)>)
    ensures r.Some? ==> 1 <= r.value.1 <= |us|
  {
    if us == [] then None
    else
      var last := us[|us| - 1];
      if last < 0xD800 || 0xE000 <= last < 0x1_0000 then Some((last as char, 1))
      else if 0xDC00 <= last < 0xE000 && |us| > 1 && 0xD800 <= us[|us| - 2] < 0xDC00 then
        Some(((0x1_0000 + 0x400 * (us[|us| - 2] - 0xD800) + (last - 0xDC00)) as char, 2))
      else None
  }

  function Decode(us: seq<nat>): Option<string> {
    if us == [] then Some("")
    else
      var last := DecodeLast(us);
      if last.None? then None
      else
        var front := Decode(us[..|us| - last.value.1]);
        if front.None? then None else Some(front.value + [last.value.0])
  }

  lemma LastComesBack(us: seq<nat>, c: char)
    ensures DecodeLast(us + EncodeChar(c)) == Some((c, |EncodeChar(c)|))
  {
    var u := c as int;
    if u >= 0x1_0000 {
      var v := u - 0x1_0000;
      assert v == 0x400 * (v / 0x400) + v % 0x400;
    }
  }

  /** The code units determine the text. */
  lemma {:induction false} RoundTrip(s: string)
    ensures Decode(Encode(s)) == Some(s)
  {
    if s != "" {
      hide DecodeLast, EncodeChar;
      var front, c := s[..|s| - 1], s[|s| - 1];
      RoundTrip(front);
      LastComesBack(Encode(front), c);
      var us := Encode(front) + EncodeChar(c);
      assert us[..|us| - |EncodeChar(c)|] == Encode(front);
      assert s == front + [c];
    }
  }

  /** The length of a text is the number of its code units. */
  lemma {:induction false} UnitsAreCodeUnits(s: string)
    ensures Captions.Units(s) == |Encode(s)|
  {
    if s != "" {
      UnitsAreCodeUnits(s[..|s| - 1]);
    }
  }
}
