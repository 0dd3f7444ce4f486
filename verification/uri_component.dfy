/**
  The percent-encoding that the contact form applies to the prefilled WhatsApp
  text: `encodeURIComponent` of ECMA-262 (section 19.2.6.5, with the Encode
  operation of section 19.2.6.1.1), and its inverse `decodeURIComponent`.

  A Dafny `char` is a Unicode scalar value, so a string here is a sequence of
  code points; every character is written as the UTF-8 octets of RFC 3629,
  section 3, each octet as "%XY" with upper-case hex digits, unless it is one
  of the characters the standard leaves unescaped.
 */
module UriComponent {
  import opened Wrappers

  /** The characters `encodeURIComponent` copies through: ASCII letters,
      decimal digits and the marks - _ . ! ~ * ' ( ). */
  predicate IsUnescaped(c: char) {
    ('A' <= c <= 'Z') || ('a' <= c <= 'z') || ('0' <= c <= '9') || c in "-_.!~*'()"
  }

  predicate IsHexDigit(c: char) {
    ('0' <= c <= '9') || ('A' <= c <= 'F') || ('a' <= c <= 'f')
  }

  function HexValue(c: char): (d: nat)
    requires IsHexDigit(c)
    ensures d < 16
  {
    if '0' <= c <= '9' then c as int - '0' as int
    else if 'A' <= c <= 'F' then c as int - 'A' as int + 10
    else c as int - 'a' as int + 10
  }

  /** The upper-case hex digit of a value below 16; reading it back gives the value. */
  function HexDigit(d: nat): (c: char)
    requires d < 16
    ensures IsHexDigit(c) && IsUnescaped(c) && HexValue(c) == d
  {
    if d < 10 then ('0' as int + d) as char else ('A' as int + d - 10) as char
  }

  /** One octet written as "%XY". */
  function EscapeOctet(b: nat): (s: string)
    requires b < 256
    ensures |s| == 3 && s[0] == '%' && IsUnescaped(s[1]) && IsUnescaped(s[2])
  {
    ['%', HexDigit(b / 16), HexDigit(b % 16)]
  }

  /** The octet written as "%XY" at the head of `s`, if there is one. */
  function OctetAt(s: string): (r: Option<nat>)
    ensures r.Some? ==> |s| >= 3 && s[0] == '%' && r.value < 256
  {
    if |s| >= 3 && s[0] == '%' && IsHexDigit(s[1]) && IsHexDigit(s[2])
    then Some(HexValue(s[1]) * 16 + HexValue(s[2]))
    else None
  }

  lemma OctetAtEscape(b: nat, rest: string)
    requires b < 256
    ensures OctetAt(EscapeOctet(b) + rest) == Some(b)
  {
    var s := EscapeOctet(b) + rest;
    assert s[1] == HexDigit(b / 16) && s[2] == HexDigit(b % 16);
  }

  predicate IsOctets(bs: seq<nat>) {
    forall i :: 0 <= i < |bs| ==> bs[i] < 256
  }

  /** The UTF-8 octets of a Unicode scalar value (RFC 3629, section 3). */
  function Utf8(c: char): (bs: seq<nat>)
    ensures 1 <= |bs| <= 4 && IsOctets(bs)
    ensures |bs| == 1 <==> c as int < 0x80
  {
    var cp := c as int;
    var q1 := cp / 64;
    var q2 := q1 / 64;
    if cp < 0x80 then [cp]
    else if cp < 0x800 then [0xC0 + q1, 0x80 + cp % 64]
    else if cp < 0x1_0000 then [0xE0 + q2, 0x80 + q1 % 64, 0x80 + cp % 64]
    else [0xF0 + q2 / 64, 0x80 + q2 % 64, 0x80 + q1 % 64, 0x80 + cp % 64]
  }

  function EscapeOctets(bs: seq<nat>): (s: string)
    requires IsOctets(bs)
    ensures |s| == 3 * |bs|
    ensures forall i :: 0 <= i < |s| ==> IsUnescaped(s[i]) || s[i] == '%'
  {
    if bs == [] then [] else EscapeOctet(bs[0]) + EscapeOctets(bs[1..])
  }

  /** How `encodeURIComponent` writes one character. */
  function EncodeChar(c: char): (s: string)
    ensures forall i :: 0 <= i < |s| ==> IsUnescaped(s[i]) || s[i] == '%'
  {
    if IsUnescaped(c) then [c] else EscapeOctets(Utf8(c))
  }

  /** Text made only of characters `encodeURIComponent` leaves unescaped and
      "%": no space, newline, "&", "#", "?" or "=" that would end or split a
      query parameter. */
  predicate IsEncoded(s: string) {
    forall i :: 0 <= i < |s| ==> IsUnescaped(s[i]) || s[i] == '%'
  }

  /** `encodeURIComponent(s)`: the result is made of unescaped characters and
      "%" only, so it cannot end the query parameter it is placed in. */
  function Encode(s: string): (r: string)
    ensures IsEncoded(r)
    ensures |s| <= |r|
  {
    if s == [] then [] else EncodeChar(s[0]) + Encode(s[1..])
  }

  /** An octet "%XY" at the head of `s` that is a UTF-8 continuation octet. */
  function ContinuationAt(s: string): (r: Option<nat>)
    ensures r.Some? ==> |s| >= 3 && 0x80 <= r.value < 0xC0
  {
    match OctetAt(s)
    case Some(b) => if 0x80 <= b < 0xC0 then Some(b) else None
    case None => None
  }

  /** How many continuation octets a leading octet announces: 1, 2 or 3 for
      110xxxxx, 1110xxxx and 11110xxx, and 0 for any other octet of 0x80 or above. */
  function Continuations(b0: nat): (n: nat)
    ensures n <= 3
    ensures n > 0 ==> LeadBits(n) <= b0 < 256
  {
    if 0xC0 <= b0 < 0xE0 then 1
    else if 0xE0 <= b0 < 0xF0 then 2
    else if 0xF0 <= b0 < 0xF8 then 3
    else 0
  }

  /** The marker bits of a leading octet followed by `n` continuation octets. */
  function LeadBits(n: nat): nat {
    if n == 1 then 0xC0 else if n == 2 then 0xE0 else 0xF0
  }

  /** The smallest code point that needs `n` continuation octets; anything
      smaller written that way is an overlong form. */
  function MinCodePoint(n: nat): nat {
    if n == 1 then 0x80 else if n == 2 then 0x800 else 0x1_0000
  }

  /** Reads `n` escaped continuation octets at the head of `s`, shifting the
      six payload bits of each into `acc`. */
  function Trailing(acc: nat, s: string, n: nat): (r: Option<nat>)
    ensures r.Some? ==> 3 * n <= |s|
    decreases n
  {
    if n == 0 then Some(acc)
    else
      match ContinuationAt(s)
      case None => None
      case Some(b) => Trailing(acc * 64 + (b - 0x80), s[3..], n - 1)
  }

  /** Reads one escaped UTF-8 sequence at the head of `s`, as the Decode
      operation of ECMA-262 does: the character and how many characters of `s`
      it takes. A stray continuation octet, a leading octet past 0xF7, an
      overlong form, a surrogate and a value past U+10FFFF are refused. */
  function DecodeEscape(s: string): (r: Option<(char, nat)>)
    ensures r.Some? ==> 3 <= r.value.1 <= |s|
  {
    match OctetAt(s)
    case None => None
    case Some(b0) =>
      if b0 < 0x80 then Some((b0 as char, 3))
      else
        var n := Continuations(b0);
        if n == 0 then None
        else
          match Trailing(b0 - LeadBits(n), s[3..], n)
          case None => None
          case Some(cp) =>
            if MinCodePoint(n) <= cp < 0x11_0000 && !(0xD800 <= cp < 0xE000)
            then Some((cp as char, 3 * (n + 1)))
            else None
  }

  /** `decodeURIComponent(s)`; `None` where it throws URIError. */
  function Decode(s: string): (r: Option<string>)
    decreases |s|
  {
    if s == [] then Some([])
    else if s[0] != '%' then
      match Decode(s[1..])
      case None => None
      case Some(t) => Some([s[0]] + t)
    else
      match DecodeEscape(s)
      case None => None
      case Some((c, n)) =>
        match Decode(s[n..])
        case None => None
        case Some(t) => Some([c] + t)
  }

  /** The value `Trailing` builds from continuation octets `bs`. */
  function Accumulate(acc: nat, bs: seq<nat>): nat
    requires forall i :: 0 <= i < |bs| ==> 0x80 <= bs[i]
    decreases |bs|
  {
    if bs == [] then acc else Accumulate(acc * 64 + (bs[0] - 0x80), bs[1..])
  }

  predicate AreContinuations(bs: seq<nat>) {
    forall i :: 0 <= i < |bs| ==> 0x80 <= bs[i] < 0xC0
  }

  /** `s` begins with the octets `bs`, each written as "%XY". */
  predicate EscapesAt(s: string, bs: seq<nat>)
    decreases |bs|
  {
    bs == [] || (|s| >= 3 && OctetAt(s) == Some(bs[0]) && EscapesAt(s[3..], bs[1..]))
  }

  /** Escaped octets, whatever follows them, are read back in order. */
  lemma {:induction false} EscapedReads(bs: seq<nat>, rest: string)
    requires IsOctets(bs)
    ensures EscapesAt(EscapeOctets(bs) + rest, bs)
    decreases |bs|
  {
    if bs != [] {
      EscapedHead(bs, rest);
      EscapedReads(bs[1..], rest);
    }
  }

  /** The first escaped octet of a sequence, and what follows it. */
  lemma EscapedHead(bs: seq<nat>, rest: string)
    requires IsOctets(bs) && bs != []
    ensures var s := EscapeOctets(bs) + rest;
      |s| >= 3 && OctetAt(s) == Some(bs[0]) && s[3..] == EscapeOctets(bs[1..]) + rest
  {
    var e, tail := EscapeOctet(bs[0]), EscapeOctets(bs[1..]) + rest;
    assert EscapeOctets(bs) + rest == e + tail by {
      assert EscapeOctets(bs) == e + EscapeOctets(bs[1..]);
      AppendAssoc(e, EscapeOctets(bs[1..]), rest);
    }
    OctetAtEscape(bs[0], tail);
    assert (e + tail)[3..] == tail;
  }

  lemma AppendAssoc(a: string, b: string, c: string)
    ensures (a + b) + c == a + (b + c)
  {
  }

  /** Escaped continuation octets read back as their accumulated value. */
  lemma {:induction false} TrailingReads(acc: nat, s: string, bs: seq<nat>)
    requires AreContinuations(bs) && EscapesAt(s, bs)
    ensures Trailing(acc, s, |bs|) == Some(Accumulate(acc, bs))
    decreases |bs|
  {
    if bs != [] {
      TrailingReads(acc * 64 + (bs[0] - 0x80), s[3..], bs[1..]);
    }
  }

  /** The last continuation octet shifts its six bits in. */
  lemma AccumulateLast(acc: nat, b: nat)
    requires 0x80 <= b
    ensures Accumulate(acc, [b]) == acc * 64 + (b - 0x80)
  {
    assert [b][1..] == [];
  }

  /** The UTF-8 form of a character: one octet equal to the code point, or a
      leading octet announcing the continuation octets that follow, which
      accumulate back to the code point, with no overlong form. */
  lemma Utf8Shape(c: char)
    ensures var bs, n := Utf8(c), |Utf8(c)| - 1;
      (n == 0 ==> bs[0] == c as int) &&
      (n > 0 ==> Continuations(bs[0]) == n && AreContinuations(bs[1..]) &&
                 MinCodePoint(n) <= c as int &&
                 Accumulate(bs[0] - LeadBits(n), bs[1..]) == c as int)
  {
    var bs, cp := Utf8(c), c as int;
    var q1 := cp / 64;
    var q2 := q1 / 64;
    var b1, b2, b3 := 0x80 + q2 % 64, 0x80 + q1 % 64, 0x80 + cp % 64;
    assert q1 * 64 + cp % 64 == cp;
    assert q2 * 64 + q1 % 64 == q1;
    if 0x80 <= cp < 0x800 {
      assert bs[1..] == [b3];
      AccumulateLast(q1, b3);
    } else if 0x800 <= cp < 0x1_0000 {
      assert bs[1..] == [b2, b3] && [b2, b3][1..] == [b3];
      AccumulateLast(q1, b3);
    } else if 0x1_0000 <= cp {
      assert q2 / 64 * 64 + q2 % 64 == q2;
      assert bs[1..] == [b1, b2, b3] && [b1, b2, b3][1..] == [b2, b3] && [b2, b3][1..] == [b3];
      AccumulateLast(q1, b3);
    }
  }

  /** Wherever the UTF-8 octets of a character are escaped, they decode to
      that character. */
  lemma DecodeEscapeAt(s: string, c: char)
    requires EscapesAt(s, Utf8(c))
    ensures DecodeEscape(s) == Some((c, 3 * |Utf8(c)|))
  {
    var bs := Utf8(c);
    var n := |bs| - 1;
    Utf8Shape(c);
    if n > 0 {
      TrailingReads(bs[0] - LeadBits(n), s[3..], bs[1..]);
    }
  }

  /** The escaped UTF-8 form of a character reads back as that character. */
  lemma DecodeEscapeOfUtf8(c: char, rest: string)
    ensures DecodeEscape(EscapeOctets(Utf8(c)) + rest) == Some((c, 3 * |Utf8(c)|))
  {
    EscapedReads(Utf8(c), rest);
    DecodeEscapeAt(EscapeOctets(Utf8(c)) + rest, c);
  }

  /** A character other than "%" is copied through. */
  lemma DecodeLiteral(x: string, t: string)
    requires x != [] && x[0] != '%' && Decode(x[1..]) == Some(t)
    ensures Decode(x) == Some([x[0]] + t)
  {
  }

  /** An escape sequence that decodes to `c` is replaced by `c`. */
  lemma DecodeEscaped(x: string, c: char, n: nat, t: string)
    requires x != [] && x[0] == '%' && DecodeEscape(x) == Some((c, n)) && Decode(x[n..]) == Some(t)
    ensures Decode(x) == Some([c] + t)
  {
  }

  /** One encoded character, followed by text that decodes to `t`, decodes
      to that character followed by `t`. */
  lemma DecodeEncodeChar(c: char, rest: string, t: string)
    requires Decode(rest) == Some(t)
    ensures Decode(EncodeChar(c) + rest) == Some([c] + t)
  {
    var e := EncodeChar(c);
    var x := e + rest;
    if IsUnescaped(c) {
      assert x[0] == c && x[1..] == rest;
      DecodeLiteral(x, t);
    } else {
      var bs := Utf8(c);
      assert x[0] == '%' by {
        assert e == EscapeOctet(bs[0]) + EscapeOctets(bs[1..]);
      }
      DecodeEscapeOfUtf8(c, rest);
      assert x[|e|..] == rest;
      DecodeEscaped(x, c, |e|, t);
    }
  }

  /** decodeURIComponent(encodeURIComponent(s)) == s for every string. */
  lemma {:induction false} DecodeEncode(s: string)
    ensures Decode(Encode(s)) == Some(s)
    decreases |s|
  {
    if s != [] {
      DecodeEncode(s[1..]);
      DecodeEncodeChar(s[0], Encode(s[1..]), s[1..]);
      assert Encode(s) == EncodeChar(s[0]) + Encode(s[1..]);
      assert [s[0]] + s[1..] == s;
    }
  }
}
