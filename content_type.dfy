/** The content-type gates of both middlewares: the normalised media type
    (`request_type` / `response_type`), the request's fixed regular
    expression and the response's list of patterns. Ruby's regular
    expressions are hand-coded here for the two fixed ones; header values
    are taken to be single lines, where `^` and `$` anchor at the ends. */
module ContentType {
  import opened XmlValues

  /** `Request::MIME_TYPE` */
  const MimeType: string := "application/xml"

  const VendorPrefix: string := "application/vnd."
  const XmlSuffix: string := "+xml"

  // ---------------------------------------------------------------------
  // The normalised type

  /** The text before the first `;` (all of it when there is none). */
  function BeforeSemicolon(s: string): (r: string)
    ensures |r| <= |s| && r == s[..|r|]
    ensures ';' !in r
    ensures r == s || s[|r|] == ';'
  {
    if s == [] || s[0] == ';' then []
    else [s[0]] + BeforeSemicolon(s[1..])
  }

  /** `header.to_s`, then `split(';', 2).first` when it contains a `;`. */
  function MediaType(header: Option<string>): (r: string)
    ensures header.None? ==> r == ""
    ensures header.Some? ==> r == BeforeSemicolon(header.value)
  {
    match header
    case None => ""
    case Some(h) => BeforeSemicolon(h)
  }

  /** The normalised type is the only prefix free of `;` that is the whole
      value or is followed by a `;`. */
  lemma {:induction false} BeforeSemicolonUnique(s: string, t: string)
    requires |t| <= |s| && t == s[..|t|] && ';' !in t
    requires t == s || s[|t|] == ';'
    ensures t == BeforeSemicolon(s)
  {
    if s != [] && s[0] != ';' {
      assert t != [];
      assert t[0] == s[0];
      assert t[1..] == s[1..][..|t| - 1];
      if t == s {
        assert t[1..] == s[1..];
      } else {
        assert s[1..][|t| - 1] == ';';
      }
      BeforeSemicolonUnique(s[1..], t[1..]);
      assert t == [t[0]] + t[1..];
    }
  }

  /** A value with no `;` is its own media type. */
  lemma {:induction false} NoSemicolonKept(s: string)
    requires ';' !in s
    ensures BeforeSemicolon(s) == s
  {
    if s != [] {
      assert ';' !in s[1..] by {
        assert forall i :: 0 <= i < |s[1..]| ==> s[1..][i] == s[i + 1];
      }
      NoSemicolonKept(s[1..]);
      assert [s[0]] + s[1..] == s;
    }
  }

  /** The media type of `base ; params` is the media type of `base`. */
  lemma {:induction false} ParametersDropped(base: string, params: string)
    requires ';' !in base
    ensures BeforeSemicolon(base + ";" + params) == base
  {
    var s := base + ";" + params;
    assert s[..|base|] == base;
    assert s[|base|] == ';';
    BeforeSemicolonUnique(s, base);
  }

  // ---------------------------------------------------------------------
  // The request gate: `%r{^application/(vnd\..+\+)?xml$}`

  /** What the pattern matches on a single-line value, stated as the two
      shapes of the language it denotes. */
  ghost predicate XmlRequestTypeSpec(t: string) {
    t == MimeType ||
    exists x: string {:trigger VendorPrefix + x + XmlSuffix} :: |x| >= 1 && t == VendorPrefix + x + XmlSuffix
  }

  /** `type.match?(MIME_TYPE_REGEX)` */
  predicate XmlRequestType(t: string) {
    t == MimeType ||
    (|t| >= |VendorPrefix| + 1 + |XmlSuffix| &&
     t[..|VendorPrefix|] == VendorPrefix &&
     t[|t| - |XmlSuffix|..] == XmlSuffix)
  }

  lemma XmlRequestTypeCorrect(t: string)
    ensures XmlRequestType(t) <==> XmlRequestTypeSpec(t)
  {
    if XmlRequestType(t) && t != MimeType {
      var x := t[|VendorPrefix|..|t| - |XmlSuffix|];
      assert t == VendorPrefix + x + XmlSuffix;
    }
    if XmlRequestTypeSpec(t) && t != MimeType {
      var x: string :| |x| >= 1 && t == VendorPrefix + x + XmlSuffix;
      assert t[..|VendorPrefix|] == VendorPrefix;
      assert t[|t| - |XmlSuffix|..] == XmlSuffix;
    }
  }

  // ---------------------------------------------------------------------
  // The default response pattern: `/\bxml$/`

  /** `\w` in Ruby: ASCII letters, digits and the underscore. */
  predicate IsWordChar(c: char) {
    ('a' <= c <= 'z') || ('A' <= c <= 'Z') || ('0' <= c <= '9') || c == '_'
  }

  /** Somewhere `xml` ends the value and is not preceded by a word
      character (the boundary `\b` before the word character `x`). */
  ghost predicate XmlWordSuffixSpec(t: string) {
    exists p: string {:trigger p + "xml"} :: t == p + "xml" && (p == [] || !IsWordChar(p[|p| - 1]))
  }

  /** `type.match?(/\bxml$/)` */
  predicate XmlWordSuffix(t: string) {
    |t| >= 3 && t[|t| - 3..] == "xml" && (|t| == 3 || !IsWordChar(t[|t| - 4]))
  }

  lemma XmlWordSuffixCorrect(t: string)
    ensures XmlWordSuffix(t) <==> XmlWordSuffixSpec(t)
  {
    if XmlWordSuffix(t) {
      var p := t[..|t| - 3];
      assert t == p + "xml";
    }
    if XmlWordSuffixSpec(t) {
      var p: string :| t == p + "xml" && (p == [] || !IsWordChar(p[|p| - 1]));
      assert t[|t| - 3..] == "xml";
      if p != [] {
        assert t[|t| - 4] == p[|p| - 1];
      }
    }
  }

  /** `xml` after a non-word character, or alone, matches. */
  lemma XmlEnding(p: string)
    requires p == [] || !IsWordChar(p[|p| - 1])
    ensures XmlWordSuffix(p + "xml")
  {
    XmlWordSuffixCorrect(p + "xml");
  }

  // ---------------------------------------------------------------------
  // The response gate: a list of patterns

  /** A regular expression given as a `content_type` pattern: the default
      one, or one the caller supplies, known only by what `match?` answers. */
  datatype Regexp = XmlSuffixRegexp | Custom(partialMatch: string -> bool)

  /** A `content_type` pattern: a Regexp, or anything else, which is compared with `==`. */
  datatype Pattern = Exact(text: string) | Regex(regexp: Regexp)

  /** The `content_type` option as given to the middleware. */
  datatype ContentTypeOption =
    | DefaultTypes                  // key absent: `/\bxml$/`
    | NilTypes                      // `content_type: nil`
    | OnePattern(pattern: Pattern)  // a single String or Regexp
    | Patterns(patterns: seq<Pattern>)

  /** `Array(options.fetch(:content_type, /\bxml$/))` */
  function ContentTypes(option: ContentTypeOption): (r: seq<Pattern>)
    ensures option.DefaultTypes? ==> r == [Regex(XmlSuffixRegexp)]
    ensures option.NilTypes? ==> r == []
    ensures option.OnePattern? ==> r == [option.pattern]
    ensures option.Patterns? ==> r == option.patterns
  {
    match option
    case DefaultTypes => [Regex(XmlSuffixRegexp)]
    case NilTypes => []
    case OnePattern(p) => [p]
    case Patterns(ps) => ps
  }

  function RegexpMatches(re: Regexp, t: string): bool {
    match re
    case XmlSuffixRegexp => XmlWordSuffix(t)
    case Custom(m) => m(t)
  }

  /** `pattern.is_a?(Regexp) ? type.match?(pattern) : type == pattern` */
  function PatternMatches(p: Pattern, t: string): bool {
    match p
    case Exact(s) => t == s
    case Regex(re) => RegexpMatches(re, t)
  }

  /** `patterns.any? { ... }` */
  function AnyMatches(ps: seq<Pattern>, t: string): bool {
    if ps == [] then false
    else PatternMatches(ps[0], t) || AnyMatches(ps[1..], t)
  }

  lemma {:induction false} AnyMatchesIff(ps: seq<Pattern>, t: string)
    ensures AnyMatches(ps, t) <==> exists i :: 0 <= i < |ps| && PatternMatches(ps[i], t)
  {
    if ps != [] {
      AnyMatchesIff(ps[1..], t);
      if AnyMatches(ps[1..], t) {
        var j :| 0 <= j < |ps[1..]| && PatternMatches(ps[1..][j], t);
        assert PatternMatches(ps[j + 1], t);
      }
      if exists i :: 0 <= i < |ps| && PatternMatches(ps[i], t) {
        var i :| 0 <= i < |ps| && PatternMatches(ps[i], t);
        if i > 0 {
          assert PatternMatches(ps[1..][i - 1], t);
        }
      }
    }
  }

  /** `process_response_type?`: an empty list accepts every type. */
  function ProcessResponseType(ps: seq<Pattern>, t: string): (r: bool)
    ensures r <==> ps == [] || exists i :: 0 <= i < |ps| && PatternMatches(ps[i], t)
  {
    AnyMatchesIff(ps, t);
    ps == [] || AnyMatches(ps, t)
  }
}
