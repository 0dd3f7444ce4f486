/**
  The WhatsApp deep link of the contact form: the configured number reduced
  to its digits, and `https://wa.me/<digits>?text=<encoded text>`.
 */
module WhatsAppLink {
  import opened Wrappers
  import UriComponent

  predicate IsDigit(c: char) {
    '0' <= c <= '9'
  }

  predicate AllDigits(s: string) {
    forall i :: 0 <= i < |s| ==> IsDigit(s[i])
  }

  /** `s.replace(/[^0-9]/g, "")`: every character outside 0-9 removed. */
  function StripNonDigits(s: string): (r: string)
    ensures AllDigits(r) && |r| <= |s|
  {
    if s == [] then []
    else (if IsDigit(s[0]) then [s[0]] else []) + StripNonDigits(s[1..])
  }

  /** Stripping works character by character: it distributes over concatenation. */
  lemma {:induction false} StripNonDigitsAppend(a: string, b: string)
    ensures StripNonDigits(a + b) == StripNonDigits(a) + StripNonDigits(b)
    decreases |a|
  {
    if a != [] {
      StripNonDigitsAppend(a[1..], b);
      assert (a + b)[1..] == a[1..] + b;
    } else {
      assert a + b == b;
    }
  }

  /** A string that is already all digits is left as it is; in particular
      stripping twice is the same as stripping once. */
  lemma {:induction false} StripNonDigitsKeepsDigits(s: string)
    requires AllDigits(s)
    ensures StripNonDigits(s) == s
    decreases |s|
  {
    if s != [] {
      StripNonDigitsKeepsDigits(s[1..]);
    }
  }

  /** The digits of `s` in their order, gathered from the last character
      back to the first. */
  function DigitsOf(s: string): string
    decreases |s|
  {
    if s == [] then []
    else DigitsOf(s[..|s| - 1]) + (if IsDigit(s[|s| - 1]) then [s[|s| - 1]] else [])
  }

  /** The stripped number is exactly the digits of the configured value, each
      kept once and in its original order, and nothing else. */
  lemma {:induction false} StripNonDigitsIsDigitsOf(s: string)
    ensures StripNonDigits(s) == DigitsOf(s)
    decreases |s|
  {
    if s != [] {
      var init, last := s[..|s| - 1], s[|s| - 1];
      assert s == init + [last];
      StripNonDigitsAppend(init, [last]);
      StripNonDigitsIsDigitsOf(init);
      assert StripNonDigits([last]) == (if IsDigit(last) then [last] else []) by {
        assert [last][1..] == [];
      }
    }
  }

  /** Spaces, "+", dashes and any other non-digit written anywhere in the
      number make no difference to the digits kept. */
  lemma StripNonDigitsIgnoresNonDigit(a: string, c: char, b: string)
    requires !IsDigit(c)
    ensures StripNonDigits(a + [c] + b) == StripNonDigits(a + b)
  {
    StripNonDigitsAppend(a + [c], b);
    StripNonDigitsAppend(a, [c]);
    StripNonDigitsAppend(a, b);
    assert StripNonDigits([c]) == StripNonDigits([c][1..]);
  }

  const Origin := "https://wa.me/"
  const TextQuery := "?text="

  /** The deep link opened for `digits` and the inquiry `text`: the origin,
      the digits and "?text=", then the text percent-encoded, so that its
      spaces, newlines, "&" and "#" cannot cut the query short. */
  function WhatsAppUrl(digits: string, text: string): (url: string)
    ensures var n := |Origin| + |digits| + |TextQuery|;
      n <= |url| && url[..n] == Origin + digits + TextQuery && UriComponent.IsEncoded(url[n..])
  {
    var enc := UriComponent.Encode(text);
    SplitAfter(Origin + digits + TextQuery, enc);

    Origin + digits + TextQuery + enc
  }

  /** The number of leading digits of `s`. */
  function DigitRun(s: string): (k: nat)
    ensures k <= |s| && AllDigits(s[..k])
    ensures k < |s| ==> !IsDigit(s[k])
  {
    if s == [] || !IsDigit(s[0]) then 0
    else
      var k := 1 + DigitRun(s[1..]);
      assert s[..k] == [s[0]] + s[1..][..k - 1];
      k
  }

  /** Reads a wa.me link back: its destination digits and the decoded
      prefilled text; `None` if it is not of that form, including when the
      text parameter holds a character that should have been escaped. */
  function ParseWhatsAppUrl(url: string): Option<(string, string)> {
    if |url| < |Origin| || url[..|Origin|] != Origin then None
    else
      var rest := url[|Origin|..];
      var k := DigitRun(rest);
      var tail := rest[k..];
      if k == 0 || |tail| < |TextQuery| || tail[..|TextQuery|] != TextQuery then None
      else if !UriComponent.IsEncoded(tail[|TextQuery|..]) then None
      else
        match UriComponent.Decode(tail[|TextQuery|..])
        case None => None
        case Some(text) => Some((rest[..k], text))
  }

  lemma {:induction false} DigitRunOfDigits(d: string, t: string)
    requires AllDigits(d)
    requires t == [] || !IsDigit(t[0])
    ensures DigitRun(d + t) == |d|
    decreases |d|
  {
    if d == [] {
      assert d + t == t;
    } else {
      DigitRunOfDigits(d[1..], t);
      assert (d + t)[1..] == d[1..] + t;
    }
  }

  /** A string split after its prefix `p` gives back `p` and the rest. */
  lemma SplitAfter(p: string, r: string)
    ensures |p + r| >= |p| && (p + r)[..|p|] == p && (p + r)[|p|..] == r
  {
  }

  /** The link carries the destination and the text unchanged: parsing the
      link recovers both. */
  lemma WhatsAppUrlRoundTrip(digits: string, text: string)
    requires digits != [] && AllDigits(digits)
    ensures ParseWhatsAppUrl(WhatsAppUrl(digits, text)) == Some((digits, text))
  {
    var enc := UriComponent.Encode(text);
    var tail := TextQuery + enc;
    var rest := digits + tail;
    var url := WhatsAppUrl(digits, text);
    assert url == Origin + rest;
    SplitAfter(Origin, rest);
    assert DigitRun(rest) == |digits| by {
      assert tail[0] == '?';
      DigitRunOfDigits(digits, tail);
    }
    SplitAfter(digits, tail);
    SplitAfter(TextQuery, enc);
    UriComponent.DecodeEncode(text);
  }

  /** A link whose text was not percent-encoded is not a link of this form:
      a text holding, say, a space or a newline is refused. */
  lemma UnencodedTextRefused(digits: string, text: string)
    requires digits != [] && AllDigits(digits)
    requires !UriComponent.IsEncoded(text)
    ensures ParseWhatsAppUrl(Origin + digits + TextQuery + text) == None
  {
    var tail := TextQuery + text;
    var rest := digits + tail;
    assert Origin + digits + TextQuery + text == Origin + rest;
    SplitAfter(Origin, rest);
    assert DigitRun(rest) == |digits| by {
      assert tail[0] == '?';
      DigitRunOfDigits(digits, tail);
    }
    SplitAfter(digits, tail);
    SplitAfter(TextQuery, text);
  }
}
