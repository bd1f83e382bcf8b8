/** The request middleware of lib/faraday/xml/request.rb: a request whose
    body is present and whose media type is absent or XML gets the default
    `Content-Type` when it has none, and a structured body is replaced by
    its XML encoding; a body that is already text is never re-encoded. */
module XmlRequest {
  import opened XmlValues
  import opened XmlEscape
  import opened XmlEncoder
  import opened ContentType
  import opened XmlEnv

  /** `body?`: present, and not an empty String. */
  predicate HasBody(b: Body) {
    match b
    case NoBody => false
    case Text(t) => t != ""
    case Data(_) => true
  }

  /** `process_request?` */
  predicate ProcessRequest(body: Body, contentType: Option<string>) {
    var t := MediaType(contentType);
    HasBody(body) && (t == "" || XmlRequestType(t))
  }

  /** `on_request` / `match_content_type` on an env value: the header is set
      with `||=` before the body is encoded, so an encoding failure leaves
      it set; `resolved` says whether the encoder's backend is available. */
  function RequestTransform(s: EnvState, resolved: bool, encoderOptions: Options): (r: Step)
    ensures !ProcessRequest(s.body, s.requestContentType) ==> r == Step(s, Pass)
    ensures ProcessRequest(s.body, s.requestContentType) ==>
      r.state.requestContentType == Some(s.requestContentType.GetOr(MimeType))
    ensures r.state == s.(body := r.state.body, requestContentType := r.state.requestContentType)
    ensures !s.body.Data? ==> r.state.body == s.body && r.outcome == Pass
    ensures r.state.body != s.body ==>
      ProcessRequest(s.body, s.requestContentType) && s.body.Data? && r.state.body.Text? && resolved
    ensures ProcessRequest(s.body, s.requestContentType) && s.body.Data? ==>
      var e := EncodeResult(resolved, encoderOptions, s.body.data);
      (e.Success? ==> r.state.body == Text(e.value) && r.outcome == Pass) &&
      (e.Failure? ==> r.state.body == s.body && r.outcome == Fail(e.error))
  {
    if !ProcessRequest(s.body, s.requestContentType) then Step(s, Pass)
    else
      var t := s.(requestContentType := Some(s.requestContentType.GetOr(MimeType)));
      match s.body
      case Data(d) =>
        var e := EncodeResult(resolved, encoderOptions, d);
        if e.Success? then Step(t.(body := Text(e.value)), Pass) else Step(t, Fail(e.error))
      case _ => Step(t, Pass)
  }

  /** A request is processed exactly when it has a body and its media type is
      empty or in the language of `^application/(vnd\..+\+)?xml$`. */
  lemma ProcessRequestIff(body: Body, contentType: Option<string>)
    ensures ProcessRequest(body, contentType) <==>
      HasBody(body) && (MediaType(contentType) == "" || XmlRequestTypeSpec(MediaType(contentType)))
  {
    XmlRequestTypeCorrect(MediaType(contentType));
  }

  // ---------------------------------------------------------------------
  // The cases of the request spec

  /** `encoder_options: { indent: 0 }` */
  const SpecEncoderOptions: Options := map[IndentKey := Int(0)]

  function SpecUser(): Value {
    Map([Entry("user", Map([Entry("name", Scalar("Erik Michaels-Ober")),
                            Entry("screen_name", Scalar("sferik"))]))])
  }

  function SpecUserXml(): string {
    "<user>" + "<name>" + "Erik Michaels-Ober" + "</name>" +
    "<screen_name>" + "sferik" + "</screen_name>" + "</user>"
  }

  function RequestEnv(body: Body, contentType: Option<string>): EnvState {
    EnvState(body, contentType, None, None, None)
  }

  /** With no body, or an empty one, nothing changes and no header is added. */
  lemma NoBodyUntouched(resolved: bool, options: Options, contentType: Option<string>)
    ensures RequestTransform(RequestEnv(NoBody, contentType), resolved, options)
         == Step(RequestEnv(NoBody, contentType), Pass)
    ensures RequestTransform(RequestEnv(Text(""), contentType), resolved, options)
         == Step(RequestEnv(Text(""), contentType), Pass)
  {
  }

  /** A non-empty String body with no type is kept as it is, and gets `application/xml`. */
  lemma TextBodyKept(xml: string, resolved: bool, options: Options)
    requires xml != ""
    ensures RequestTransform(RequestEnv(Text(xml), None), resolved, options)
         == Step(RequestEnv(Text(xml), Some(MimeType)), Pass)
  {
  }

  lemma SpecPrologIsEmpty()
    ensures Prolog(SpecEncoderOptions) == ""
  {
    assert SkipInstructKey !in SpecEncoderOptions;
  }

  lemma SpecUserEncodes()
    ensures EncodeResult(true, SpecEncoderOptions, SpecUser()) == Success(SpecUserXml())
  {
    SpecPrologIsEmpty();
    UserExample();
  }

  /** A Hash body with no type is encoded and gets `application/xml`. */
  lemma ObjectBodyEncoded()
    ensures RequestTransform(RequestEnv(Data(SpecUser()), None), true, SpecEncoderOptions)
         == Step(RequestEnv(Text(SpecUserXml()), Some(MimeType)), Pass)
  {
    SpecUserEncodes();
  }

  /** The empty Hash is encoded as the empty string. */
  lemma EmptyObjectEncoded()
    ensures RequestTransform(RequestEnv(Data(Map([])), None), true, SpecEncoderOptions)
         == Step(RequestEnv(Text(""), Some(MimeType)), Pass)
  {
    SpecPrologIsEmpty();
    EmptyMap("");
  }

  /** A structured body with a processed header that is already set: it is
      encoded and the header is kept verbatim. */
  lemma HeaderKeptWhenSet(header: string)
    requires MediaType(Some(header)) == "" || XmlRequestType(MediaType(Some(header)))
    ensures RequestTransform(RequestEnv(Data(SpecUser()), Some(header)), true, SpecEncoderOptions)
         == Step(RequestEnv(Text(SpecUserXml()), Some(header)), Pass)
  {
    SpecUserEncodes();
  }

  /** A header `base;params` normalises to `base`. */
  lemma HeaderWithParameters(base: string, params: string)
    requires ';' !in base
    ensures MediaType(Some(base + ";" + params)) == base
  {
    ParametersDropped(base, params);
  }

  /** An XML type with parameters is accepted and kept verbatim. */
  lemma XmlCharsetKept()
    ensures var header := "application/xml" + ";" + " charset=utf-8";
      RequestTransform(RequestEnv(Data(SpecUser()), Some(header)), true, SpecEncoderOptions)
        == Step(RequestEnv(Text(SpecUserXml()), Some(header)), Pass)
  {
    assert ';' !in MimeType;
    HeaderWithParameters(MimeType, " charset=utf-8");
    HeaderKeptWhenSet(MimeType + ";" + " charset=utf-8");
  }

  /** `application/vnd.myapp.v1+xml` is in the vendor tree. */
  lemma VendorType()
    ensures XmlRequestType("application/vnd." + "myapp.v1" + "+xml")
    ensures ';' !in "application/vnd." + "myapp.v1" + "+xml"
  {
    XmlRequestTypeCorrect(VendorPrefix + "myapp.v1" + XmlSuffix);
    assert ';' !in VendorPrefix && ';' !in "myapp.v1" && ';' !in XmlSuffix;
  }

  /** A vendor-tree XML type is accepted and kept verbatim. */
  lemma VendorTypeKept()
    ensures var header := "application/vnd." + "myapp.v1" + "+xml" + ";" + " charset=utf-8";
      RequestTransform(RequestEnv(Data(SpecUser()), Some(header)), true, SpecEncoderOptions)
        == Step(RequestEnv(Text(SpecUserXml()), Some(header)), Pass)
  {
    var base := "application/vnd." + "myapp.v1" + "+xml";
    VendorType();
    HeaderWithParameters(base, " charset=utf-8");
    HeaderKeptWhenSet(base + ";" + " charset=utf-8");
  }

  /** `application/json` is not an XML request type. */
  lemma JsonType()
    ensures !XmlRequestType("application/json")
    ensures ';' !in "application/json"
  {
    assert |"application/json"| < |VendorPrefix| + 1 + |XmlSuffix|;
  }

  /** A JSON type is not processed: body and header stay as they are. */
  lemma JsonTypeSkipped(resolved: bool, options: Options)
    ensures var header := "application/json" + ";" + " charset=utf-8";
      RequestTransform(RequestEnv(Data(SpecUser()), Some(header)), resolved, options)
        == Step(RequestEnv(Data(SpecUser()), Some(header)), Pass)
  {
    JsonType();
    HeaderWithParameters("application/json", " charset=utf-8");
  }

  // ---------------------------------------------------------------------
  // The middleware object

  class RequestMiddleware {
    /** `@encoder_options` and `@encoder` */
    const encoder: Encoder

    /** `initialize(app, encoder_options: ...)`; an absent key is `{}`. */
    constructor (encoderOptions: Options)
      ensures fresh(encoder)
      ensures encoder.options == encoderOptions && encoder.handle == None && encoder.selfTests == 0
    {
      encoder := new Encoder(Some(encoderOptions));
    }

    /** `on_request(env)`: `match_content_type` with the encoding block. */
    method OnRequest(env: Env, builderAvailable: bool) returns (outcome: Outcome<Error>)
      modifies env`body, env`requestContentType, encoder`handle, encoder`selfTests
      ensures var step := RequestTransform(old(env.State()), encoder.handle.Some?, encoder.options);
        env.State() == step.state && outcome == step.outcome
      ensures encoder.handle ==
        if ProcessRequest(old(env.body), old(env.requestContentType)) && old(env.body).Data?
        then FillRenderer(old(encoder.handle), builderAvailable) else old(encoder.handle)
      ensures encoder.selfTests ==
        old(encoder.selfTests) + if old(encoder.handle).None? && encoder.handle.Some? then 1 else 0
    {
      outcome := MatchContentType(env, builderAvailable);
    }

    /** `match_content_type(env)`, with the block of `on_request`: nothing
        happens unless `process_request?` holds; then the header is set with
        `||=`, and a body that is not a String is encoded. */
    method MatchContentType(env: Env, builderAvailable: bool) returns (outcome: Outcome<Error>)
      modifies env`body, env`requestContentType, encoder`handle, encoder`selfTests
      ensures var step := RequestTransform(old(env.State()), encoder.handle.Some?, encoder.options);
        env.State() == step.state && outcome == step.outcome
      ensures encoder.handle ==
        if ProcessRequest(old(env.body), old(env.requestContentType)) && old(env.body).Data?
        then FillRenderer(old(encoder.handle), builderAvailable) else old(encoder.handle)
      ensures encoder.selfTests ==
        old(encoder.selfTests) + if old(encoder.handle).None? && encoder.handle.Some? then 1 else 0
    {
      if !ProcessRequest(env.body, env.requestContentType) {
        return Pass;
      }
      ghost var s := env.State();
      env.requestContentType := Some(env.requestContentType.GetOr(MimeType));
      ghost var t := env.State();
      assert t == s.(requestContentType := Some(s.requestContentType.GetOr(MimeType)));
      if env.body.Data? {
        var r := encoder.Encode(env.body.data, builderAvailable);
        assert r == EncodeResult(encoder.handle.Some?, encoder.options, s.body.data);
        if r.Failure? {
          assert env.State() == t;
          return Fail(r.error);
        }
        env.body := Text(r.value);
        assert env.State() == t.(body := Text(r.value));
      }
      outcome := Pass;
    }
  }
}
