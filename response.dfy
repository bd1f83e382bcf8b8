/** The response middleware of lib/faraday/xml/response.rb: a String body
    whose media type matches one of the configured patterns is decoded by
    the XML backend; a blank body becomes `nil` without the backend being
    consulted; `raw_body` keeps the text when asked to; and any failure of
    the decoding is raised as a `Faraday::ParsingError` carrying the
    response, with the body left as it was. */
module XmlResponse {
  import opened XmlValues
  import opened ContentType
  import opened XmlParser
  import opened XmlEnv

  /** The options the middleware is built with: `parser_options` (nil when
      absent), `content_type`, and `preserve_raw` (None when absent). */
  datatype ResponseOptions = ResponseOptions(
    parserOptions: Option<Options>,
    contentType: ContentTypeOption,
    preserveRaw: Option<OptionValue>)

  /** `@parser_options`, `@content_types`, `@preserve_raw` */
  datatype ResponseConfig = ResponseConfig(
    parserOptions: Option<Options>,
    contentTypes: seq<Pattern>,
    preserveRaw: bool)

  /** `initialize`: the patterns default to `[/\bxml$/]` and are wrapped
      into a list; `preserve_raw` defaults to false and is tested for
      truthiness. */
  function Configure(o: ResponseOptions): (c: ResponseConfig)
    ensures c.parserOptions == o.parserOptions
    ensures c.contentTypes == ContentTypes(o.contentType)
    ensures o.contentType.DefaultTypes? ==> c.contentTypes == [Regex(XmlSuffixRegexp)]
    ensures o.preserveRaw.None? ==> !c.preserveRaw
    ensures o.preserveRaw.Some? ==> (c.preserveRaw <==> Truthy(o.preserveRaw.value))
  {
    ResponseConfig(o.parserOptions, ContentTypes(o.contentType), Truthy(o.preserveRaw.GetOr(Bool(false))))
  }

  /** `@parser_options || {}`: what every decoder call, the self-test
      included, is given. */
  function ParserOptions(c: ResponseConfig): (r: Options)
    ensures c.parserOptions.Some? ==> r == c.parserOptions.value
    ensures c.parserOptions.None? ==> r == map[]
  {
    c.parserOptions.GetOr(map[])
  }

  // ---------------------------------------------------------------------
  // Blank bodies: `body.strip.empty?`

  /** The characters `String#strip` removes at either end. */
  predicate IsStripChar(c: char) {
    c == '\0' || c == '\t' || c == '\n' || c == '\U{B}' || c == '\U{C}' || c == '\r' || c == ' '
  }

  /** `rstrip` */
  function StripTrailing(s: string): (r: string)
    ensures |r| <= |s| && r == s[..|r|]
    ensures r != [] ==> !IsStripChar(r[|r| - 1])
    ensures forall i :: |r| <= i < |s| ==> IsStripChar(s[i])
    decreases |s|
  {
    if s != [] && IsStripChar(s[|s| - 1]) then StripTrailing(s[..|s| - 1]) else s
  }

  /** `lstrip` */
  function StripLeading(s: string): (r: string)
    ensures |r| <= |s| && r == s[|s| - |r|..]
    ensures r != [] ==> !IsStripChar(r[0])
    ensures forall i :: 0 <= i < |s| - |r| ==> IsStripChar(s[i])
  {
    if s != [] && IsStripChar(s[0]) then
      var r := StripLeading(s[1..]);
      assert s[1..][|s| - 1 - |r|..] == s[|s| - |r|..];
      assert forall i :: 1 <= i < |s| - |r| ==> s[i] == s[1..][i - 1];
      r
    else s
  }

  function Strip(s: string): string {
    StripLeading(StripTrailing(s))
  }

  predicate Blank(s: string) {
    Strip(s) == ""
  }

  lemma {:induction false} StripTrailingEmptyIff(s: string)
    ensures StripTrailing(s) == "" <==> forall i :: 0 <= i < |s| ==> IsStripChar(s[i])
    decreases |s|
  {
    if s != [] && IsStripChar(s[|s| - 1]) {
      var p := s[..|s| - 1];
      StripTrailingEmptyIff(p);
      assert forall i :: 0 <= i < |p| ==> p[i] == s[i];
    }
  }

  lemma {:induction false} StripLeadingEmptyIff(s: string)
    ensures StripLeading(s) == "" <==> forall i :: 0 <= i < |s| ==> IsStripChar(s[i])
  {
    if s != [] && IsStripChar(s[0]) {
      var p := s[1..];
      StripLeadingEmptyIff(p);
      assert forall i :: 0 <= i < |p| ==> p[i] == s[i + 1];
      assert forall i :: 1 <= i < |s| ==> s[i] == p[i - 1];
    }
  }

  /** A body is blank exactly when it is made of whitespace and NUL characters only. */
  lemma BlankIff(s: string)
    ensures Blank(s) <==> forall i :: 0 <= i < |s| ==> IsStripChar(s[i])
  {
    StripTrailingEmptyIff(s);
    var t := StripTrailing(s);
    StripLeadingEmptyIff(t);
    if t != [] {
      assert !IsStripChar(t[|t| - 1]);
    }
  }

  // ---------------------------------------------------------------------
  // The transition on an env value

  /** `parse_response?` */
  predicate ParseResponse(c: ResponseConfig, body: Body, contentType: Option<string>) {
    ProcessResponseType(c.contentTypes, MediaType(contentType)) && body.Text?
  }

  /** `parse(body)`: `nil` for a blank body, else the decoder's result; the
      decoder cell is in state `cell` before the call. */
  function ParseText(c: ResponseConfig, text: string, cell: Option<Backend>, avail: Availability, library: Library)
    : (r: Result<Body, Error>)
    ensures Blank(text) ==> r == Success(NoBody)
    ensures !Blank(text) ==>
      var call := CallResult(cell, avail, library, ParserOptions(c), text, ParserOptions(c));
      r == if call.Success? then Success(Data(call.value)) else Failure(call.error)
  {
    if Blank(text) then Success(NoBody)
    else
      var call := CallResult(cell, avail, library, ParserOptions(c), text, ParserOptions(c));
      if call.Success? then Success(Data(call.value)) else Failure(call.error)
  }

  /** `process_response` on an env value whose body is the text `s.body.text`,
      given what `parse` gives for it. */
  function ProcessResponseStep(c: ResponseConfig, s: EnvState, parsed: Result<Body, Error>): (r: Step)
    requires s.body.Text?
    ensures r.state == s.(body := r.state.body, rawBody := r.state.rawBody)
    ensures c.preserveRaw ==> r.state.rawBody == Some(s.body.text)
    ensures !c.preserveRaw ==> r.state.rawBody == s.rawBody
    ensures parsed.Success? ==> r.state.body == parsed.value && r.outcome == Pass
    ensures parsed.Failure? ==> r.state.body == s.body && r.outcome == Fail(ParsingError(parsed.error, s.response))
  {
    var raw := if c.preserveRaw then s.(rawBody := Some(s.body.text)) else s;
    if parsed.Success? then Step(raw.(body := parsed.value), Pass)
    else Step(raw, Fail(ParsingError(parsed.error, s.response)))
  }

  /** `on_complete` on an env value. */
  function ResponseTransform(c: ResponseConfig, s: EnvState, cell: Option<Backend>, avail: Availability, library: Library)
    : (r: Step)
    ensures !ParseResponse(c, s.body, s.responseContentType) ==> r == Step(s, Pass)
    ensures ParseResponse(c, s.body, s.responseContentType) ==>
      r == ProcessResponseStep(c, s, ParseText(c, s.body.text, cell, avail, library))
    ensures r.state == s.(body := r.state.body, rawBody := r.state.rawBody)
    ensures !c.preserveRaw ==> r.state.rawBody == s.rawBody
    ensures r.outcome.Fail? ==>
      r.state.body == s.body && r.outcome.error.ParsingError? && r.outcome.error.response == s.response
    ensures ParseResponse(c, s.body, s.responseContentType) && Blank(s.body.text) ==>
      r.state.body == NoBody && r.outcome == Pass
  {
    if !ParseResponse(c, s.body, s.responseContentType) then Step(s, Pass)
    else ProcessResponseStep(c, s, ParseText(c, s.body.text, cell, avail, library))
  }

  /** A blank body is replaced without the decoder: the result does not
      depend on the decoder cell, on what can be loaded, or on the library. */
  lemma BlankBodySkipsDecoder(c: ResponseConfig, s: EnvState,
                              cell1: Option<Backend>, avail1: Availability, library1: Library,
                              cell2: Option<Backend>, avail2: Availability, library2: Library)
    requires ParseResponse(c, s.body, s.responseContentType) && Blank(s.body.text)
    ensures ResponseTransform(c, s, cell1, avail1, library1) == ResponseTransform(c, s, cell2, avail2, library2)
  {
  }

  /** With a resolved decoder, a non-blank text body becomes exactly what the
      library answers to the call the backend makes with the parser options. */
  lemma DecodedBodyIsLibraryAnswer(c: ResponseConfig, s: EnvState, b: Backend, avail: Availability, library: Library)
    requires ParseResponse(c, s.body, s.responseContentType) && !Blank(s.body.text)
    ensures var answer := library(Invocation(b, s.body.text, ParserOptions(c)));
      var r := ResponseTransform(c, s, Some(b), avail, library);
      (answer.Success? ==> r.state.body == Data(answer.value) && r.outcome == Pass) &&
      (answer.Failure? ==> r.state.body == s.body &&
                           r.outcome == Fail(ParsingError(LibraryFailure(answer.error), s.response)))
  {
  }

  /** When no backend can be loaded, a non-blank body raises a ParsingError
      wrapping the missing-dependency error, and the body keeps its text. */
  lemma MissingBackendIsParsingError(c: ResponseConfig, s: EnvState, library: Library)
    requires ParseResponse(c, s.body, s.responseContentType) && !Blank(s.body.text)
    ensures ResponseTransform(c, s, None, Availability(false, false), library).outcome
         == Fail(ParsingError(MissingDependencies(ParserMissing), s.response))
    ensures ResponseTransform(c, s, None, Availability(false, false), library).state.body == s.body
  {
  }

  // ---------------------------------------------------------------------
  // The cases of the response spec

  function ResponseEnv(body: Body, contentType: Option<string>): EnvState {
    EnvState(body, None, contentType, None, None)
  }

  const DefaultConfig: ResponseConfig := Configure(ResponseOptions(None, DefaultTypes, None))

  lemma DefaultPatterns()
    ensures DefaultConfig.contentTypes == [Regex(XmlSuffixRegexp)]
  {
  }

  /** `application/xml` carries no parameters. */
  lemma MimeTypeIsMediaType()
    ensures MediaType(Some(MimeType)) == MimeType
  {
    assert ';' !in MimeType;
    NoSemicolonKept(MimeType);
  }

  /** `application/xml` ends in `xml` after a `/`. */
  lemma MimeTypeEndsInXml()
    ensures XmlWordSuffix(MimeType)
  {
    assert MimeType == "application/" + "xml";
    XmlEnding("application/");
  }

  /** `application/xml`, the type the spec's responses carry by default, matches `/\bxml$/`. */
  lemma ApplicationXmlMatchesDefault()
    ensures ProcessResponseType(DefaultConfig.contentTypes, MediaType(Some(MimeType)))
  {
    DefaultPatterns();
    MimeTypeIsMediaType();
    MimeTypeEndsInXml();
    assert PatternMatches(Regex(XmlSuffixRegexp), MimeType);
  }

  /** A nil body is left as it is. */
  lemma NilBodyUntouched(c: ResponseConfig, contentType: Option<string>, cell: Option<Backend>,
                         avail: Availability, library: Library)
    ensures ResponseTransform(c, ResponseEnv(NoBody, contentType), cell, avail, library)
         == Step(ResponseEnv(NoBody, contentType), Pass)
  {
  }

  /** Under the default configuration, a blank body of an XML response becomes nil. */
  lemma BlankBodyNullified(text: string, cell: Option<Backend>, avail: Availability, library: Library)
    requires Blank(text)
    ensures ResponseTransform(DefaultConfig, ResponseEnv(Text(text), Some(MimeType)), cell, avail, library)
         == Step(ResponseEnv(NoBody, Some(MimeType)), Pass)
  {
    ApplicationXmlMatchesDefault();
  }

  /** The spec's empty body and bodies of spaces are blank. */
  lemma SpecBodiesBlank()
    ensures Blank("") && Blank(" ") && Blank("  ")
  {
    BlankIff(" ");
    BlankIff("  ");
  }

  /** A decoded body replaces the text, and `raw_body` receives the text
      exactly when `preserve_raw` is set. */
  lemma DecodedWithAndWithoutRaw(preserve: bool, xml: string, b: Backend, avail: Availability, library: Library)
    requires !Blank(xml)
    requires library(Invocation(b, xml, map[])).Success?
    ensures var c := Configure(ResponseOptions(None, DefaultTypes, Some(Bool(preserve))));
      var parsed := library(Invocation(b, xml, map[])).value;
      ResponseTransform(c, ResponseEnv(Text(xml), Some(MimeType)), Some(b), avail, library)
        == Step(ResponseEnv(Data(parsed), Some(MimeType)).(rawBody := if preserve then Some(xml) else None), Pass)
  {
    ApplicationXmlMatchesDefault();
  }

  /** The default pattern accepts `text/xml` with parameters. */
  lemma TextXmlMatchesDefault()
    ensures ProcessResponseType(DefaultConfig.contentTypes, MediaType(Some("text/xml" + ";" + " encoding=\"UTF-8\";charset=UTF-8")))
  {
    var base := "text/xml";
    assert ';' !in base;
    ParametersDropped(base, " encoding=\"UTF-8\";charset=UTF-8");
    assert base == "text/" + "xml";
    XmlEnding("text/");
    DefaultPatterns();
    assert PatternMatches(Regex(XmlSuffixRegexp), base);
  }

  /** `text/html` is its own media type and does not end in `xml`. */
  lemma HtmlType()
    ensures MediaType(Some("text/html")) == "text/html"
    ensures !XmlWordSuffix("text/html")
  {
    var t := "text/html";
    assert ';' !in t;
    NoSemicolonKept(t);
    assert t[|t| - 3..][0] == 't';
  }

  /** Under the default pattern a `text/html` body is left as raw text. */
  lemma TextHtmlIgnored(xml: string, cell: Option<Backend>, avail: Availability, library: Library)
    ensures ResponseTransform(DefaultConfig, ResponseEnv(Text(xml), Some("text/html")), cell, avail, library)
         == Step(ResponseEnv(Text(xml), Some("text/html")), Pass)
  {
    HtmlType();
    DefaultPatterns();
    assert !PatternMatches(Regex(XmlSuffixRegexp), "text/html");
  }

  /** A list of String patterns is compared exactly. */
  lemma ExactTypeList()
    ensures var ps := ContentTypes(Patterns([Exact("a/b"), Exact("c/d")]));
      ProcessResponseType(ps, "a/b") && ProcessResponseType(ps, "c/d") && !ProcessResponseType(ps, "a/d")
  {
    var ps := [Exact("a/b"), Exact("c/d")];
    assert PatternMatches(ps[0], "a/b");
    assert PatternMatches(ps[1], "c/d");
  }

  /** The options spec: with ActiveSupport, `Hash.from_xml` receives the body
      and `disallowed_types` and nothing else. */
  lemma DisallowedTypesForwarded(xml: string)
    ensures var c := Configure(ResponseOptions(Some(map[DisallowedTypesKey := Str("yaml")]), DefaultTypes, None));
      Invocation(ActiveSupport, xml, ParserOptions(c)) == HashFromXml(xml, Str("yaml"))
  {
  }

  // ---------------------------------------------------------------------
  // The middleware object

  class ResponseMiddleware {
    const config: ResponseConfig
    /** `@parser`, the decoder cell */
    const parser: Parser

    constructor (o: ResponseOptions)
      ensures config == Configure(o)
      ensures fresh(parser) && parser.handle == None && parser.selfTests == 0
    {
      config := Configure(o);
      parser := new Parser();
    }

    /** `parse(body)` */
    method Parse(text: string, avail: Availability, library: Library) returns (r: Result<Body, Error>)
      modifies parser`handle, parser`selfTests
      ensures r == ParseText(config, text, old(parser.handle), avail, library)
      ensures parser.handle == if Blank(text) then old(parser.handle) else FillParser(old(parser.handle), avail)
      ensures parser.selfTests ==
        old(parser.selfTests) + if old(parser.handle).None? && parser.handle.Some? then 1 else 0
    {
      if Blank(text) {
        return Success(NoBody);
      }
      var options := ParserOptions(config);
      var backend := parser.Resolve(avail, library, options);
      if backend.Failure? {
        return Failure(backend.error);
      }
      var call := library(Invocation(backend.value, text, options));
      if call.Failure? {
        r := Failure(LibraryFailure(call.error));
      } else {
        r := Success(Data(call.value));
      }
    }

    /** `on_complete(env)` */
    method OnComplete(env: Env, avail: Availability, library: Library) returns (outcome: Outcome<Error>)
      modifies env`body, env`rawBody, parser`handle, parser`selfTests
      ensures var step := ResponseTransform(config, old(env.State()), old(parser.handle), avail, library);
        env.State() == step.state && outcome == step.outcome
      ensures parser.handle ==
        if ParseResponse(config, old(env.body), old(env.responseContentType)) && !Blank(old(env.body).text)
        then FillParser(old(parser.handle), avail) else old(parser.handle)
      ensures parser.selfTests ==
        old(parser.selfTests) + if old(parser.handle).None? && parser.handle.Some? then 1 else 0
    {
      if !ParseResponse(config, env.body, env.responseContentType) {
        return Pass;
      }
      outcome := ProcessResponse(env, avail, library);
    }

    /** `process_response(env)`, reached once `parse_response?` holds. */
    method ProcessResponse(env: Env, avail: Availability, library: Library) returns (outcome: Outcome<Error>)
      requires env.body.Text?
      modifies env`body, env`rawBody, parser`handle, parser`selfTests
      ensures var step := ProcessResponseStep(config, old(env.State()), ParseText(config, old(env.body).text, old(parser.handle), avail, library));
        env.State() == step.state && outcome == step.outcome
      ensures parser.handle == if Blank(old(env.body).text) then old(parser.handle) else FillParser(old(parser.handle), avail)
      ensures parser.selfTests ==
        old(parser.selfTests) + if old(parser.handle).None? && parser.handle.Some? then 1 else 0
    {
      ghost var s := env.State();
      var text := env.body.text;
      if config.preserveRaw {
        env.rawBody := Some(text);
      }
      ghost var raw := env.State();
      assert raw == if config.preserveRaw then s.(rawBody := Some(text)) else s;
      var parsed := Parse(text, avail, library);
      if parsed.Failure? {
        outcome := Fail(ParsingError(parsed.error, env.response));
        assert env.State() == raw;
      } else {
        env.body := parsed.value;
        outcome := Pass;
        assert env.State() == raw.(body := parsed.value);
      }
    }
  }
}
