# faraday-xml in Dafny

A model of the faraday-xml gem. The gem is a pair of Faraday middlewares:

- The **request** middleware (`Faraday::XML::Request`) takes a request whose body is a Ruby Hash and whose `Content-Type` is absent or XML. It encodes the body as XML and sets the default `Content-Type: application/xml` when none is present.
- The **response** middleware (`Faraday::XML::Response`) takes a String response body whose media type matches its configured patterns and decodes it through an XML library. It can keep the raw text in `raw_body`, and it reports a decoding failure as a `Faraday::ParsingError`.

Two utility classes sit behind them:

- `Faraday::XML::Encoder`: the structural XML encoder.
- `Faraday::XML::Parser`: a façade over whichever XML library can be loaded.

Each middleware and utility class keeps its backend in a memo cell. The cell is filled on first use from a priority list of optional libraries, and the fill is followed by a one-time self-test.

The modules follow the source files:

| module | file | source |
|---|---|---|
| `XmlValues` | values.dfy | structured values, option hashes, bodies, errors |
| `XmlEscape` | escape.dfy | `String#encode(xml: :text)`: `&`, `<`, `>` become `&amp;`, `&lt;`, `&gt;` (section 2.4 of XML 1.0) |
| `XmlEncoder` | encoder.rb, and its copy inside request.rb | escaping of scalars happens in `XmlEscape`, which this module imports |
| `ContentType` | request.rb and response.rb | the normalised media type, the request's regular expression, the response's pattern list |
| `XmlParser` | parser.rb; the same cell appears in response.rb | the decoder's backend selection and memo cell |
| `XmlEnv` | — | the env fields the middlewares touch |
| `XmlRequest` | request.rb | the request middleware |
| `XmlResponse` | response.rb | the response middleware |

Each operation that works by steps is a method. `ParametersAsXml` and `ParameterAsListXml` are the `each_pair` / `each` loops appending to a markup buffer. The memo-cell classes `Encoder` and `Parser` have methods `SetEncoder`/`SetParser`, `Resolve`, `Encode`/`Parse` and `Build`. The middleware classes have `OnRequest` and `OnComplete`, which update an `Env` object in place.

Each method is proved against a pure function:

- `RenderMap`, `RenderList` and `RenderValue` for the loops;
- `FillRenderer`, `FillParser` and `ResolveResult` for the cells;
- `RequestTransform` and `ResponseTransform` for the middlewares.

The lemmas state what the source promises about those functions.

How the model represents the parts of the system it does not contain:

- **XML libraries.** They are an opaque, possibly failing function `library` from the call made (`MultiXml.parse(xml, options)` or `Hash.from_xml(xml, disallowed_types)`) to the result. The model proves nothing about what they decode.
- **Which libraries can be loaded.** This is an input of every call: `builderAvailable`, or an `Availability` for MultiXml and ActiveSupport.
- **Exceptions.** A raised exception is an `Error` value.

Where the code differs from what one might expect, the model follows the code:

- Scalar text is escaped for `&`, `<` and `>` only. Quotes are left as they are.
- A memo cell that is still `nil` is probed again on every call, not just once. A self-test that fails leaves the cell filled, because the cell is assigned before the test runs.
- The response middleware passes its own `@parser_options || {}` to every decoding call, the self-test included. It does not use options taken from the request.
- The missing-dependency error raised while resolving the response's decoder is a `RuntimeError`. It is caught by the same `rescue StandardError` and surfaces as a `ParsingError`.

## Model

The rows for the encoder cite encoder.rb. request.rb keeps its own copy of the same code: `encoder` at lines 27-34, `parameters_as_xml` and its helpers, `build_xml_markup` included, at 79-132. The rows for the decoder cell cite parser.rb. response.rb repeats that cell: `parser` at lines 20-27, `set_parser` at 48-69. Each copy is modelled by the same members.

| member | source | states |
|---|---|---|
| XmlEscape.EscapeText | lib/faraday/xml/encoder.rb:78 | `value.to_s.encode(xml: :text)`, character by character; `UnescapeEscape`, `EscapeIdentityIff` and `EscapedHasNoAngleBrackets` state what it does |
| XmlEscape.UnescapeAmp | lib/faraday/xml/encoder.rb:78 | `&amp;` reads back as `&` |
| XmlEscape.UnescapeLt | lib/faraday/xml/encoder.rb:78 | `&lt;` reads back as `<` |
| XmlEscape.UnescapeGt | lib/faraday/xml/encoder.rb:78 | `&gt;` reads back as `>` |
| XmlEscape.UnescapePlain | lib/faraday/xml/encoder.rb:78 | a character other than `&`, `<`, `>` reads back as itself |
| XmlEscape.UnescapeEscapedChar | lib/faraday/xml/encoder.rb:78 | the escape of any one character reads back as that character |
| XmlEscape.EscapeChar | lib/faraday/xml/encoder.rb:78 | `&`, `<`, `>` become entity references that start with `&` and end with `;`; every other character is kept as is; no output contains `<` or `>` |
| XmlEscape.UnescapeEscape | lib/faraday/xml/encoder.rb:78 | reading the escaped text back with the three predefined entities gives the original text: escaping loses nothing |
| XmlEscape.EscapedHasNoAngleBrackets | lib/faraday/xml/encoder.rb:78 | escaped scalar text never contains a character that opens or closes a tag |
| XmlEscape.EscapeLength | lib/faraday/xml/encoder.rb:78 | escaping never shortens a text, and keeps its length only when the text is unchanged and free of markup characters |
| XmlEscape.EscapeOfPlainText | lib/faraday/xml/encoder.rb:78 | a text without `&`, `<`, `>` is its own escape |
| XmlEscape.EscapeIdentityIff | lib/faraday/xml/encoder.rb:78 | escaping changes a text exactly when it contains `&`, `<` or `>` |
| XmlEncoder.Shaped | lib/faraday/xml/encoder.rb:48-88 | the values the encoder accepts: every item of every Array is a Hash; `ValueRendersIff` proves that rendering succeeds exactly on these |
| XmlEncoder.RenderValue | lib/faraday/xml/encoder.rb:71-80 | `_parameter_as_xml`: a Hash by `RenderMap`, an Array by `RenderList`, a scalar by its escaped text; `ParameterAsXml` is proved to compute it |
| XmlEncoder.RenderMap | lib/faraday/xml/encoder.rb:48-62 | `parameters_as_xml`: the prolog followed by the entries' elements; `ParametersAsXml` is proved to compute it, `SingleEntry` and `RenderEntriesAppend` state its shape |
| XmlEncoder.RenderEntries | lib/faraday/xml/encoder.rb:50-60 | the `each_pair` loop's output so far; `RenderEntriesAppend` proves it concatenates in insertion order |
| XmlEncoder.RenderEntry | lib/faraday/xml/encoder.rb:52-58 | one `each_pair` step: `tag!(key) { << inner }` for a Hash or Array, `tag!(key, text)` otherwise; `SingleEntry` states both |
| XmlEncoder.RenderList | lib/faraday/xml/encoder.rb:82-88 | `_parameter_as_list_xml`: the prolog followed by the items' Hash renderings; `ParameterAsListXml` is proved to compute it |
| XmlEncoder.RenderItems | lib/faraday/xml/encoder.rb:84-86 | the `each` loop's output so far; `RenderItemsAppend` and `ItemsRenderIff` state its shape and when it fails |
| XmlEncoder.EncodeValue | lib/faraday/xml/encoder.rb:48-62 | encoding succeeds exactly when the data is a Hash and every Array inside it holds only Hashes; anything else reaches `each_pair` on a non-Hash |
| XmlEncoder.ValueRendersIff | lib/faraday/xml/encoder.rb:71-80 | `_parameter_as_xml` of a value succeeds exactly when the value is well shaped |
| XmlEncoder.EntriesRenderIff | lib/faraday/xml/encoder.rb:48-62 | a sequence of entries renders exactly when every entry's value is well shaped |
| XmlEncoder.ItemsRenderIff | lib/faraday/xml/encoder.rb:82-88 | a list renders exactly when every item is a well-shaped Hash |
| XmlEncoder.RenderEntriesAppend | lib/faraday/xml/encoder.rb:50-60 | the entries of a Hash render as the concatenation of their elements in insertion order |
| XmlEncoder.RenderItemsAppend | lib/faraday/xml/encoder.rb:84-86 | a list renders as the concatenation of its items' Hash renderings, in order, with no wrapper element |
| XmlEncoder.JoinAssociative | lib/faraday/xml/encoder.rb:55 | appending fragments to the markup buffer is associative, failure included |
| XmlEncoder.SingleEntry | lib/faraday/xml/encoder.rb:52-58 | a scalar entry renders as `<key>` + escaped text + `</key>`; a Hash or Array entry renders as `<key>` + the value's rendering + `</key>`, after the Builder's prolog |
| XmlEncoder.OneEntry | lib/faraday/xml/encoder.rb:50-60 | a one-entry Hash contributes exactly that entry's element |
| XmlEncoder.TwoScalarEntries | lib/faraday/xml/encoder.rb:50-60 | two scalar entries render as their two elements, in order |
| XmlEncoder.EmptyMap | spec/faraday/xml/request_spec.rb:83-89 | the empty Hash renders as the prolog alone, which is `""` by default |
| XmlEncoder.SelfTestRenders | lib/faraday/xml/encoder.rb:33-35 | the self-test value `{ success: true }` always renders, as `<success>true</success>` |
| XmlEncoder.UserShape | spec/faraday/xml/request_spec.rb:11-16 | the spec's nested user Hash renders as `<user><name>…</name><screen_name>…</screen_name></user>` for any name and screen name free of markup characters |
| XmlEncoder.SuccessElement | lib/faraday/xml/encoder.rb:34 | the self-test's element is spelled `<success>true</success>` |
| XmlEncoder.InnerUser | spec/faraday/xml/request_spec.rb:11-16 | the inner Hash of the spec's example is well shaped and renders as its `name` element followed by its `screen_name` element |
| XmlEncoder.TwoPlainEntries | lib/faraday/xml/encoder.rb:48-62 | a Hash of two markup-free scalars, with no prolog, is well shaped and renders as its two elements in order |
| XmlEncoder.NameElement | spec/faraday/xml/request_spec.rb:12 | the `name` element is spelled `<name>` … `</name>` |
| XmlEncoder.ScreenNameElement | spec/faraday/xml/request_spec.rb:12 | the `screen_name` element is spelled `<screen_name>` … `</screen_name>` |
| XmlEncoder.UserElement | spec/faraday/xml/request_spec.rb:12 | the `user` element is spelled `<user>` … `</user>` |
| XmlEncoder.NestedConcat | lib/faraday/xml/encoder.rb:52-58 | two elements written inside a third flatten into one string |
| XmlEncoder.UserTags | spec/faraday/xml/request_spec.rb:11-13 | the nested elements of the spec's example spell out the expected tags |
| XmlEncoder.UserExample | spec/faraday/xml/request_spec.rb:11-16 | the spec's input Hash encodes to exactly the spec's XML string |
| XmlEncoder.PlainName | spec/faraday/xml/request_spec.rb:15 | the example's name contains no markup characters, so escaping keeps it |
| XmlEncoder.PlainScreenName | spec/faraday/xml/request_spec.rb:15 | the example's screen name is kept by escaping |
| XmlEncoder.MarkupOptions | lib/faraday/xml/encoder.rb:94-95 | the Builder options are `{skip_instruct: true}` merged with the encoder options, which win; `indent` is 2 unless supplied |
| XmlEncoder.Prolog | lib/faraday/xml/encoder.rb:97-99 | every Builder writes the XML declaration exactly when the encoder options give `skip_instruct` a falsy value, and nothing otherwise |
| XmlEncoder.EncodeResult | lib/faraday/xml/encoder.rb:19-29 | with no backend, the result is the `'Missing dependencies Builder'` error; otherwise it is the rendering of the Hash, or `NoMethodError` for data that is not a well-shaped Hash |
| XmlEncoder.ParametersAsXml | lib/faraday/xml/encoder.rb:48-62 | the `each_pair` loop over the buffer computes the rendering of the Hash |
| XmlEncoder.ParameterAsXml | lib/faraday/xml/encoder.rb:71-80 | the case dispatch computes the rendering of the value |
| XmlEncoder.ParameterAsListXml | lib/faraday/xml/encoder.rb:82-88 | the `each` loop over the buffer computes the rendering of the list |
| XmlEncoder.EntriesStep | lib/faraday/xml/encoder.rb:50-60 | one more entry appends its element to the rendering so far |
| XmlEncoder.EntriesFailurePropagates | lib/faraday/xml/encoder.rb:50-60 | once an entry fails to render, the whole Hash fails |
| XmlEncoder.ItemsFailurePropagates | lib/faraday/xml/encoder.rb:84-86 | once an item fails to render, the whole Array fails |
| XmlEncoder.ItemsStep | lib/faraday/xml/encoder.rb:84-86 | one more item appends its Hash rendering to the rendering so far |
| XmlEncoder.FillRenderer | lib/faraday/xml/encoder.rb:37-46 | `@encoder ||=` keeps a filled cell, and fills an empty one exactly when Builder can be loaded |
| XmlEncoder.Encoder.constructor | lib/faraday/xml/encoder.rb:15-17 | a nil option hash becomes `{}`; the cell starts empty |
| XmlEncoder.Encoder.SetEncoder | lib/faraday/xml/encoder.rb:37-46 | the cell changes only from empty to the Builder renderer |
| XmlEncoder.Encoder.Resolve | lib/faraday/xml/encoder.rb:23-30 | the cell is filled as `FillRenderer` says; the self-test runs exactly on the call that fills it; with no backend the call raises and leaves the cell empty |
| XmlEncoder.Encoder.Encode | lib/faraday/xml/encoder.rb:19-21 | the result is `EncodeResult` for the cell after resolution |
| XmlEncoder.Encoder.Build | lib/faraday/xml/encoder.rb:9-13 | gives an encoder whose cell is filled and self-tested once, or the missing-dependency error |
| ContentType.BeforeSemicolon | lib/faraday/xml/request.rb:73-77 | the normalised type is a prefix without `;`, and is the whole value or is followed by `;` |
| ContentType.MediaType | lib/faraday/xml/response.rb:83-87 | an absent header gives `""`; otherwise the text before the first `;` |
| ContentType.BeforeSemicolonUnique | lib/faraday/xml/request.rb:75 | the prefix so characterised is unique |
| ContentType.NoSemicolonKept | lib/faraday/xml/request.rb:75 | a value without `;` is kept whole |
| ContentType.ParametersDropped | lib/faraday/xml/response.rb:85 | the media type of `base;params` is `base` |
| ContentType.XmlRequestType | lib/faraday/xml/request.rb:14 | the request test `match?(MIME_TYPE_REGEX)` on one line; `XmlRequestTypeCorrect` proves it equals the regular expression's language |
| ContentType.XmlWordSuffix | lib/faraday/xml/response.rb:10 | the default response test `/\bxml$/` on one line; `XmlWordSuffixCorrect` proves it equals the pattern's language |
| ContentType.PatternMatches | lib/faraday/xml/response.rb:78-80 | one pattern against a type: `match?` for a Regexp, `==` otherwise; `AnyMatchesIff` states how it is used |
| ContentType.AnyMatches | lib/faraday/xml/response.rb:78-80 | `@content_types.any?`; `AnyMatchesIff` proves it holds exactly when some pattern matches |
| ContentType.XmlEnding | lib/faraday/xml/response.rb:10 | `xml` at the end of a value after a non-word character, or as the whole value, matches `/\bxml$/` |
| ContentType.XmlRequestTypeCorrect | lib/faraday/xml/request.rb:14 | the request test accepts exactly `application/xml` and `application/vnd.<x>+xml` with a non-empty `<x>`, the language of `^application/(vnd\..+\+)?xml$` on one line |
| ContentType.XmlWordSuffixCorrect | lib/faraday/xml/response.rb:10 | the default response pattern `/\bxml$/` accepts exactly the values ending in `xml` that is not preceded by a word character |
| ContentType.ContentTypes | lib/faraday/xml/response.rb:10 | an absent `content_type` gives `[/\bxml$/]`, nil gives `[]`, one pattern is wrapped into a list, and a list is kept |
| ContentType.AnyMatchesIff | lib/faraday/xml/response.rb:78-80 | `any?` holds exactly when some pattern matches: a Regexp by `match?`, anything else by `==` |
| ContentType.ProcessResponseType | lib/faraday/xml/response.rb:76-81 | a type is processed exactly when the pattern list is empty or some pattern matches it |
| XmlParser.Invocation | lib/faraday/xml/parser.rb:35-48 | the backend gets `xml` unchanged; MultiXml gets the whole options hash, ActiveSupport only `options[:disallowed_types]`, which is nil when absent |
| XmlParser.FillParser | lib/faraday/xml/parser.rb:31-52 | a filled cell is never replaced; an empty one takes MultiXml if it loads, else ActiveSupport if it loads, else stays empty |
| XmlParser.ResolveResult | lib/faraday/xml/parser.rb:17-24 | a filled cell answers its backend; nothing loadable gives the missing-dependency error; the call that fills the cell fails exactly when the self-test's library call fails |
| XmlParser.CallResult | lib/faraday/xml/parser.rb:13-15 | `parser.call(xml, options)` is the resolution error, or the library's answer to the backend's call, failures wrapped |
| XmlParser.CellAfter | lib/faraday/xml/parser.rb:17-24 | the cell after a run of calls, each with what could be loaded at that call; `FilledCellKept`, `FirstLoadableWins` and `NothingLoadableStaysEmpty` state what it is |
| XmlParser.SelfTestsDuring | lib/faraday/xml/parser.rb:17-24 | how many self-tests a run of calls performs; `SelfTestAtMostOnce` bounds it by one |
| XmlParser.FilledCellKept | lib/faraday/xml/parser.rb:19-21 | over any run of later calls, a filled cell is kept and the self-test never runs |
| XmlParser.SelfTestAtMostOnce | lib/faraday/xml/parser.rb:17-29 | over any run of calls from an empty cell, the self-test runs at most once, and exactly once if some call can load a backend |
| XmlParser.FirstLoadableWins | lib/faraday/xml/parser.rb:17-24 | the backend kept is the one chosen by the first call that can load any backend, whatever loads later |
| XmlParser.NothingLoadableStaysEmpty | lib/faraday/xml/parser.rb:19-23 | while nothing can be loaded, the cell stays empty and no self-test runs, so every call probes again |
| XmlParser.Parser.constructor | lib/faraday/xml/parser.rb:8 | the cell starts empty |
| XmlParser.Parser.SetParser | lib/faraday/xml/parser.rb:31-52 | the two memoising assignments leave the cell as `FillParser` says |
| XmlParser.Parser.Resolve | lib/faraday/xml/parser.rb:17-24 | the cell becomes `FillParser` of the old one; the self-test counter grows by one exactly when the call filled the cell; the result is `ResolveResult` |
| XmlParser.Parser.Parse | lib/faraday/xml/parser.rb:13-15 | omitted options are `{}`; the result is `CallResult` on the old cell |
| XmlParser.Parser.Build | lib/faraday/xml/parser.rb:7-11 | gives a parser whose cell is filled and self-tested once, or the error resolving raised |
| XmlRequest.RequestTransform | lib/faraday/xml/request.rb:57-62 | an unprocessed request is unchanged; a processed one gets `application/xml` only if it had no header; a String body is never re-encoded; a Hash body is replaced by its encoding, or the encoder's error is raised with the body kept; nothing but the body and that header changes |
| XmlRequest.HasBody | lib/faraday/xml/request.rb:69-71 | `body?`: a body is present and is not an empty String; `NoBodyUntouched` shows the two bodies it rejects |
| XmlRequest.ProcessRequest | lib/faraday/xml/request.rb:64-67 | `process_request?`; `ProcessRequestIff` states it against the regular expression's language |
| XmlRequest.ProcessRequestIff | lib/faraday/xml/request.rb:64-71 | a request is processed exactly when it has a body that is not an empty String and its media type is empty or in the language of the XML type pattern |
| XmlRequest.NoBodyUntouched | spec/faraday/xml/request_spec.rb:35-57 | a nil body and an empty String body change nothing and add no header |
| XmlRequest.TextBodyKept | spec/faraday/xml/request_spec.rb:59-69 | a String body is kept as it is and gets `application/xml` |
| XmlRequest.SpecPrologIsEmpty | spec/faraday/xml/request_spec.rb:7-9 | `encoder_options: { indent: 0 }` writes no XML declaration |
| XmlRequest.SpecUserEncodes | spec/faraday/xml/request_spec.rb:11-16 | with those options the spec's Hash encodes to the spec's XML string |
| XmlRequest.ObjectBodyEncoded | spec/faraday/xml/request_spec.rb:71-81 | a Hash body is encoded and gets `application/xml` |
| XmlRequest.EmptyObjectEncoded | spec/faraday/xml/request_spec.rb:83-89 | `{}` is encoded as `""` |
| XmlRequest.HeaderKeptWhenSet | lib/faraday/xml/request.rb:60 | a header that is already set is kept verbatim while the body is encoded |
| XmlRequest.HeaderWithParameters | lib/faraday/xml/request.rb:73-77 | a header `base;params` normalises to `base` |
| XmlRequest.VendorType | spec/faraday/xml/request_spec.rb:104 | `application/vnd.myapp.v1+xml` is an XML request type and carries no parameters |
| XmlRequest.XmlCharsetKept | spec/faraday/xml/request_spec.rb:91-101 | with `application/xml; charset=utf-8` the body is encoded and the header kept |
| XmlRequest.VendorTypeKept | spec/faraday/xml/request_spec.rb:103-113 | with the vendor type the body is encoded and the header kept |
| XmlRequest.JsonType | spec/faraday/xml/request_spec.rb:116 | `application/json` is not an XML request type and carries no parameters |
| XmlRequest.JsonTypeSkipped | spec/faraday/xml/request_spec.rb:115-125 | with `application/json; charset=utf-8` neither body nor header changes |
| XmlRequest.RequestMiddleware.constructor | lib/faraday/xml/request.rb:16-19 | the middleware's encoder holds the encoder options and an empty cell |
| XmlRequest.RequestMiddleware.OnRequest | lib/faraday/xml/request.rb:21-25 | the env becomes `RequestTransform` of the old env; the encoder's cell is resolved exactly when a processed Hash body is encoded and `encoder.selfTests` grows by one exactly when the call fills the cell, so the self-test runs only then; only the body and the request header are written |
| XmlRequest.RequestMiddleware.MatchContentType | lib/faraday/xml/request.rb:57-62 | an unprocessed request is left alone; otherwise the header is set with `\|\|=` before encoding and the body is replaced only on success, so the env becomes `RequestTransform` of the old env; the encoder cell is resolved only for a processed Hash body and `encoder.selfTests` grows by one exactly when the call fills the cell, so the self-test runs only then |
| XmlResponse.Configure | lib/faraday/xml/response.rb:7-12 | `parser_options` is kept; the patterns default to `[/\bxml$/]` and are wrapped into a list; `preserve_raw` defaults to false and counts by truthiness |
| XmlResponse.ParserOptions | lib/faraday/xml/response.rb:41 | nil parser options become `{}` |
| XmlResponse.StripTrailing | lib/faraday/xml/response.rb:39 | the result is a prefix of the text that does not end in whitespace or NUL, and everything removed is whitespace or NUL |
| XmlResponse.StripLeading | lib/faraday/xml/response.rb:39 | the result is a suffix of the text that does not start with whitespace or NUL, and everything removed is whitespace or NUL |
| XmlResponse.StripTrailingEmptyIff | lib/faraday/xml/response.rb:39 | right-stripping empties a text exactly when it is all whitespace and NUL |
| XmlResponse.StripLeadingEmptyIff | lib/faraday/xml/response.rb:39 | left-stripping empties a text exactly when it is all whitespace and NUL |
| XmlResponse.Strip | lib/faraday/xml/response.rb:39 | `strip`: `rstrip` then `lstrip` |
| XmlResponse.Blank | lib/faraday/xml/response.rb:39 | `strip.empty?`; `BlankIff` proves it holds exactly on text made of whitespace and NUL |
| XmlResponse.BlankIff | lib/faraday/xml/response.rb:39 | `strip.empty?` holds exactly when the body is made of whitespace and NUL only |
| XmlResponse.ParseResponse | lib/faraday/xml/response.rb:71-74 | `parse_response?`: the media type passes the pattern list and the body is a String; `ResponseTransform` leaves every other response unchanged |
| XmlResponse.ParseText | lib/faraday/xml/response.rb:38-42 | a blank body parses to nil; any other body gives the decoder's answer under the parser options, `{}` when nil |
| XmlResponse.ProcessResponseStep | lib/faraday/xml/response.rb:31-36 | `raw_body` gets the text exactly when `preserve_raw` is set; a decoded value replaces the body; a failure raises `ParsingError(e, env[:response])` and keeps the body; nothing else changes |
| XmlResponse.ResponseTransform | lib/faraday/xml/response.rb:31-36 | an unparsed response is unchanged; `raw_body` gets the text exactly when `preserve_raw` is set; a failure raises `ParsingError(e, env[:response])` with the body kept; a blank body becomes nil; nothing but the body and `raw_body` changes |
| XmlResponse.BlankBodySkipsDecoder | lib/faraday/xml/response.rb:38-39 | for a blank body the outcome does not depend on the decoder cell, on what can be loaded, or on the library |
| XmlResponse.DecodedBodyIsLibraryAnswer | lib/faraday/xml/response.rb:31-42 | with a resolved backend, the body becomes exactly the library's answer, or the failure is raised as a `ParsingError` with the body kept |
| XmlResponse.MissingBackendIsParsingError | lib/faraday/xml/response.rb:34-35 | with no loadable backend, a non-blank body raises a `ParsingError` wrapping the missing-dependency error |
| XmlResponse.DefaultPatterns | lib/faraday/xml/response.rb:10 | with no `content_type` option the pattern list is `[/\bxml$/]` |
| XmlResponse.MimeTypeIsMediaType | spec/faraday/xml/response_spec.rb:21 | `application/xml` is its own media type |
| XmlResponse.MimeTypeEndsInXml | spec/faraday/xml/response_spec.rb:21 | `application/xml` matches `/\bxml$/` |
| XmlResponse.ApplicationXmlMatchesDefault | spec/faraday/xml/response_spec.rb:21-27 | `application/xml` matches the default pattern |
| XmlResponse.NilBodyUntouched | spec/faraday/xml/response_spec.rb:33-35 | a nil body is left as it is |
| XmlResponse.BlankBodyNullified | spec/faraday/xml/response_spec.rb:37-39 | under the default configuration, any blank body of an `application/xml` response becomes nil, whatever the decoder |
| XmlResponse.SpecBodiesBlank | spec/faraday/xml/response_spec.rb:94-103 | `""`, `" "` and `"  "` are blank |
| XmlResponse.DecodedWithAndWithoutRaw | spec/faraday/xml/response_spec.rb:41-56 | the decoded value replaces the body; `raw_body` holds the text exactly when `preserve_raw` is set |
| XmlResponse.TextXmlMatchesDefault | spec/faraday/xml/response_spec.rb:59-62 | `text/xml; encoding="UTF-8";charset=UTF-8` matches the default pattern |
| XmlResponse.HtmlType | spec/faraday/xml/response_spec.rb:65 | `text/html` is its own media type and does not match `/\bxml$/` |
| XmlResponse.TextHtmlIgnored | spec/faraday/xml/response_spec.rb:64-67 | under the default pattern a `text/html` body is left as its raw text |
| XmlResponse.ExactTypeList | spec/faraday/xml/response_spec.rb:70-81 | with `%w[a/b c/d]` the types `a/b` and `c/d` are parsed and `a/d` is not |
| XmlResponse.DisallowedTypesForwarded | spec/faraday/xml/response_spec.rb:106-125 | with ActiveSupport, `Hash.from_xml` gets the body and `disallowed_types` only |
| XmlResponse.ResponseMiddleware.constructor | lib/faraday/xml/response.rb:7-12 | the configuration is `Configure` of the options; the decoder cell starts empty |
| XmlResponse.ResponseMiddleware.Parse | lib/faraday/xml/response.rb:38-42 | the result is `ParseText` on the old cell; a blank body leaves the cell untouched and `parser.selfTests` grows by one exactly when the call fills the cell, so the self-test runs only then |
| XmlResponse.ResponseMiddleware.OnComplete | lib/faraday/xml/response.rb:16-18 | the env becomes `ResponseTransform` of the old env; the decoder cell is consulted only for a parsed, non-blank body and `parser.selfTests` grows by one exactly when the call fills the cell, so the self-test runs only then; only the body and `raw_body` are written |
| XmlResponse.ResponseMiddleware.ProcessResponse | lib/faraday/xml/response.rb:31-36 | the env becomes `ProcessResponseStep` of the old env and the parse result; the decoder cell is filled only for a non-blank body and `parser.selfTests` grows by one exactly when the call fills the cell, so the self-test runs only then |

## Left out

- The XML libraries (`Builder::XmlMarkup`, `MultiXml.parse`, `Hash.from_xml`) are not part of this model. Decoding is an opaque, possibly failing function, so there is no decode semantics and no encode/decode round trip.
- Builder's own escaping of the text given to `tag!` is not visible in the source and is not modelled: `tag!` is plain concatenation, and only the explicit `encode(xml: :text)` is escaped.
- XmlEncoder.EncodeResult: gives the `indent: 0` string for every option hash, including the default where `indent` is 2 and Builder adds line breaks; the same holds for `Encoder.Encode` and `RequestTransform`, which use it.
- Layout for `indent > 0` is Builder's pretty-printing. Only the `indent: 0` string is modelled; the `indent` option is modelled only as far as the defaulting to 2.
- `require` and `LoadError`: whether a library can be loaded is an input of each call, not a probe.
- Faraday plumbing is not modelled:
  - middleware chaining, `app.call` and `Faraday::Response` objects;
  - the `Faraday::XML::Middleware` base class and the `CONTENT_TYPE` constant;
  - case-insensitive header lookup;
  - headers other than `Content-Type`.
  The env is a record of the fields these middlewares touch, and the response is an opaque handle.
- lib/faraday/xml.rb only registers the middleware under `:xml` when loaded, so it has no behaviour to model.
- Ruby regular expressions are modelled only in part:
  - the two fixed patterns are hand-coded predicates on single-line values, where `^`/`$` are the ends of the value;
  - `\w` is ASCII letters, digits and `_`;
  - a caller-supplied Regexp is an opaque `match?` predicate.
- The exception hierarchy (`StandardError`, `SyntaxError`, `RuntimeError`, `TypeError`) is collapsed into the `Error` datatype.
- A body of `false` (falsy, but not `nil`) is not modelled.
- `String#strip` is modelled as removing whitespace and NUL at both ends.
- Hash keys and scalars are held as the text their `to_s` gives.
- XmlRequest.RequestMiddleware.constructor: takes the encoder options as a hash. An explicit `encoder_options: nil`, for which Ruby would raise `TypeError` at `merge!` on first use, is not modelled.
- The self-test's result is not part of the resolved value: `Encoder.Resolve` only counts that it ran, since it cannot fail.
- Nothing is concurrent in the source, so the memo cells are modelled for sequential use only.
