/** Escaping of scalar text as XML character data (section 2.4 of XML 1.0):
    Ruby's `String#encode(xml: :text)` replaces `&`, `<` and `>` by the
    entity references `&amp;`, `&lt;` and `&gt;` and leaves every other
    character, quotes included, as it is. */
module XmlEscape {

  predicate IsMarkupChar(c: char) {
    c == '&' || c == '<' || c == '>'
  }

  predicate NoMarkupChars(s: string) {
    forall i :: 0 <= i < |s| ==> !IsMarkupChar(s[i])
  }

  function EscapeChar(c: char): (r: string)
    ensures IsMarkupChar(c) ==> |r| > 1 && r[0] == '&' && r[|r| - 1] == ';'
    ensures !IsMarkupChar(c) ==> r == [c]
    ensures '<' !in r && '>' !in r
  {
    if c == '&' then "&amp;"
    else if c == '<' then "&lt;"
    else if c == '>' then "&gt;"
    else [c]
  }

  /** `value.to_s.encode(xml: :text)` */
  function EscapeText(s: string): string
  {
    if s == [] then [] else EscapeChar(s[0]) + EscapeText(s[1..])
  }

  /** The reading of character data that an XML processor performs for the
      three predefined entity references: the reference definition that
      `EscapeText` is the inverse of. */
  function UnescapeText(s: string): string
  {
    if s == [] then []
    else if |s| >= 5 && s[..5] == "&amp;" then ['&'] + UnescapeText(s[5..])
    else if |s| >= 4 && s[..4] == "&lt;" then ['<'] + UnescapeText(s[4..])
    else if |s| >= 4 && s[..4] == "&gt;" then ['>'] + UnescapeText(s[4..])
    else [s[0]] + UnescapeText(s[1..])
  }

  lemma UnescapeAmp(rest: string)
    ensures UnescapeText("&amp;" + rest) == ['&'] + UnescapeText(rest)
  {
    var t := "&amp;" + rest;
    assert t[..5] == "&amp;" && t[5..] == rest;
  }

  lemma UnescapeLt(rest: string)
    ensures UnescapeText("&lt;" + rest) == ['<'] + UnescapeText(rest)
  {
    var t := "&lt;" + rest;
    assert t[1] == 'l';
    assert t[..4] == "&lt;" && t[4..] == rest;
  }

  lemma UnescapeGt(rest: string)
    ensures UnescapeText("&gt;" + rest) == ['>'] + UnescapeText(rest)
  {
    var t := "&gt;" + rest;
    assert t[1] == 'g';
    assert t[..4] == "&gt;" && t[4..] == rest;
  }

  lemma UnescapePlain(c: char, rest: string)
    requires !IsMarkupChar(c)
    ensures UnescapeText([c] + rest) == [c] + UnescapeText(rest)
  {
    var t := [c] + rest;
    assert t[0] == c && t[1..] == rest;
  }

  lemma UnescapeEscapedChar(c: char, rest: string)
    ensures UnescapeText(EscapeChar(c) + rest) == [c] + UnescapeText(rest)
  {
    if c == '&' {
      UnescapeAmp(rest);
    } else if c == '<' {
      UnescapeLt(rest);
    } else if c == '>' {
      UnescapeGt(rest);
    } else {
      UnescapePlain(c, rest);
    }
  }

  /** Escaping loses nothing: reading the escaped text back gives the scalar text. */
  lemma {:induction false} UnescapeEscape(s: string)
    ensures UnescapeText(EscapeText(s)) == s
  {
    if s != [] {
      UnescapeEscapedChar(s[0], EscapeText(s[1..]));
      UnescapeEscape(s[1..]);
      assert [s[0]] + s[1..] == s;
    }
  }

  /** Escaped text never contains a character that opens or closes a tag. */
  lemma {:induction false} EscapedHasNoAngleBrackets(s: string)
    ensures '<' !in EscapeText(s) && '>' !in EscapeText(s)
  {
    if s != [] {
      EscapedHasNoAngleBrackets(s[1..]);
    }
  }

  lemma {:induction false} EscapeLength(s: string)
    ensures |EscapeText(s)| >= |s|
    ensures |EscapeText(s)| == |s| ==> EscapeText(s) == s && NoMarkupChars(s)
  {
    if s != [] {
      EscapeLength(s[1..]);
      assert [s[0]] + s[1..] == s;
    }
  }

  lemma {:induction false} EscapeOfPlainText(s: string)
    requires NoMarkupChars(s)
    ensures EscapeText(s) == s
  {
    if s != [] {
      EscapeOfPlainText(s[1..]);
      assert [s[0]] + s[1..] == s;
    }
  }

  /** Escaping changes a text exactly when it contains `&`, `<` or `>`. */
  lemma EscapeIdentityIff(s: string)
    ensures EscapeText(s) == s <==> NoMarkupChars(s)
  {
    EscapeLength(s);
    if NoMarkupChars(s) {
      EscapeOfPlainText(s);
    }
  }
}
