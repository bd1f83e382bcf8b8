/** The structural XML encoder of lib/faraday/xml/encoder.rb (copied verbatim
    into lib/faraday/xml/request.rb): a Hash becomes one element per entry, in
    insertion order; a Hash or Array value is rendered inside its key's
    element; an Array contributes its items' renderings with no wrapper of its
    own; a scalar becomes its escaped text. The strings are those Builder
    writes with `indent: 0`, where `tag!` and `<<` only concatenate. */
module XmlEncoder {
  import opened XmlValues
  import opened XmlEscape

  const SkipInstructKey: string := "skip_instruct"
  const IndentKey: string := "indent"
  const DefaultIndent: int := 2

  /** What `instruct! :xml, version: '1.0', encoding: 'UTF-8'` writes with `indent: 0`. */
  const Declaration: string := "<?xml version=\"1.0\" encoding=\"UTF-8\"?>"

  const BuilderMissing: string := "Missing dependencies Builder"

  /** `{ success: true }`, the value the self-test encodes. */
  const SelfTestData: seq<Entry> := [Entry("success", Scalar("true"))]

  // ---------------------------------------------------------------------
  // Rendering as recursive functions: the specification of the loops below

  function Element(key: string, content: string): string {
    "<" + key + ">" + content + "</" + key + ">"
  }

  /** Concatenation of two fragments; a failure on either side is a failure. */
  function Join(a: Option<string>, b: Option<string>): Option<string> {
    if a.Some? && b.Some? then Some(a.value + b.value) else None
  }

  /** `_parameter_as_xml?`: a Hash or an Array is rendered inside a block. */
  predicate IsCompound(v: Value) {
    v.Map? || v.List?
  }

  /** Values the encoder accepts: every item of every Array is a Hash (each
      item goes through `parameters_as_xml`, and `each_pair` exists only on a Hash). */
  predicate Shaped(v: Value) {
    match v
    case Scalar(_) => true
    case Map(es) => forall i :: 0 <= i < |es| ==> Shaped(es[i].value)
    case List(items) => forall i :: 0 <= i < |items| ==> items[i].Map? && Shaped(items[i])
  }

  predicate EntriesShaped(es: seq<Entry>) {
    forall i :: 0 <= i < |es| ==> Shaped(es[i].value)
  }

  /** `_parameter_as_xml`, with `prolog` what each new Builder writes first. */
  function RenderValue(v: Value, prolog: string): Option<string>
    decreases v
  {
    match v
    case Map(es) => RenderMap(es, prolog)
    case List(items) => RenderList(items, prolog)
    case Scalar(t) => Some(EscapeText(t))
  }

  /** `parameters_as_xml`: a fresh Builder, then one element per entry. None is
      the NoMethodError that a non-Hash list item raises somewhere inside. */
  function RenderMap(es: seq<Entry>, prolog: string): Option<string>
    decreases es, 1
  {
    Join(Some(prolog), RenderEntries(es, prolog))
  }

  function RenderEntries(es: seq<Entry>, prolog: string): Option<string>
    decreases es, 0
  {
    if es == [] then Some("")
    else Join(RenderEntries(es[..|es| - 1], prolog), RenderEntry(es[|es| - 1], prolog))
  }

  /** The two branches of the `each_pair` body: `tag!(key) { << inner }` and `tag!(key, text)`. */
  function RenderEntry(e: Entry, prolog: string): Option<string>
    decreases e
  {
    if IsCompound(e.value) then
      var inner := RenderValue(e.value, prolog);
      if inner.Some? then Some(Element(e.key, inner.value)) else None
    else Some(Element(e.key, EscapeText(e.value.text)))
  }

  /** `_parameter_as_list_xml`: a fresh Builder, then each item's `parameters_as_xml`. */
  function RenderList(items: seq<Value>, prolog: string): Option<string>
    decreases items, 1
  {
    Join(Some(prolog), RenderItems(items, prolog))
  }

  function RenderItems(items: seq<Value>, prolog: string): Option<string>
    decreases items, 0
  {
    if items == [] then Some("")
    else
      var last := items[|items| - 1];
      Join(RenderItems(items[..|items| - 1], prolog),
           if last.Map? then RenderMap(last.entries, prolog) else None)
  }

  /** What the encoder's lambda does with the data it is given: `parameters_as_xml(data)`. */
  function EncodeValue(data: Value, prolog: string): (r: Option<string>)
    ensures r.Some? <==> data.Map? && Shaped(data)
  {
    if data.Map? then
      EntriesRenderIff(data.entries, prolog);
      RenderMap(data.entries, prolog)
    else None
  }

  // ---------------------------------------------------------------------
  // Properties of the rendering

  lemma JoinAssociative(a: Option<string>, b: Option<string>, c: Option<string>)
    ensures Join(Join(a, b), c) == Join(a, Join(b, c))
  {
    if a.Some? && b.Some? && c.Some? {
      assert (a.value + b.value) + c.value == a.value + (b.value + c.value);
    }
  }

  /** A Hash renders as the concatenation of its entries' renderings in
      insertion order: splitting the entries splits the output. */
  lemma {:induction false} RenderEntriesAppend(a: seq<Entry>, b: seq<Entry>, prolog: string)
    ensures RenderEntries(a + b, prolog) == Join(RenderEntries(a, prolog), RenderEntries(b, prolog))
    decreases |b|
  {
    if b == [] {
      assert a + b == a;
      var ra := RenderEntries(a, prolog);
      if ra.Some? { assert ra.value + "" == ra.value; }
    } else {
      var ab := a + b;
      assert ab[..|ab| - 1] == a + b[..|b| - 1];
      assert ab[|ab| - 1] == b[|b| - 1];
      RenderEntriesAppend(a, b[..|b| - 1], prolog);
      JoinAssociative(RenderEntries(a, prolog), RenderEntries(b[..|b| - 1], prolog),
                      RenderEntry(b[|b| - 1], prolog));
    }
  }

  /** An Array renders as the concatenation of its items' renderings. */
  lemma {:induction false} RenderItemsAppend(a: seq<Value>, b: seq<Value>, prolog: string)
    ensures RenderItems(a + b, prolog) == Join(RenderItems(a, prolog), RenderItems(b, prolog))
    decreases |b|
  {
    if b == [] {
      assert a + b == a;
      var ra := RenderItems(a, prolog);
      if ra.Some? { assert ra.value + "" == ra.value; }
    } else {
      var ab := a + b;
      assert ab[..|ab| - 1] == a + b[..|b| - 1];
      assert ab[|ab| - 1] == b[|b| - 1];
      RenderItemsAppend(a, b[..|b| - 1], prolog);
      var last := b[|b| - 1];
      JoinAssociative(RenderItems(a, prolog), RenderItems(b[..|b| - 1], prolog),
                      if last.Map? then RenderMap(last.entries, prolog) else None);
    }
  }

  /** Rendering succeeds exactly on shaped values: it fails only when some
      Array holds an item that is not a Hash. */
  lemma {:induction false} ValueRendersIff(v: Value, prolog: string)
    ensures RenderValue(v, prolog).Some? <==> Shaped(v)
    decreases v, 2
  {
    match v
    case Scalar(_) =>
    case Map(es) => EntriesRenderIff(es, prolog);
    case List(items) => ItemsRenderIff(items, prolog);
  }

  lemma {:induction false} EntriesRenderIff(es: seq<Entry>, prolog: string)
    ensures RenderEntries(es, prolog).Some? <==> EntriesShaped(es)
    decreases es, 1
  {
    if es != [] {
      var init, last := es[..|es| - 1], es[|es| - 1];
      EntriesRenderIff(init, prolog);
      ValueRendersIff(last.value, prolog);
      assert EntriesShaped(es) <==> EntriesShaped(init) && Shaped(last.value) by {
        if EntriesShaped(init) && Shaped(last.value) {
          forall i | 0 <= i < |es| ensures Shaped(es[i].value) {
            if i < |es| - 1 { assert es[i] == init[i]; }
          }
        }
        if EntriesShaped(es) {
          forall i | 0 <= i < |init| ensures Shaped(init[i].value) {
            assert init[i] == es[i];
          }
        }
      }
    }
  }

  lemma {:induction false} ItemsRenderIff(items: seq<Value>, prolog: string)
    ensures RenderItems(items, prolog).Some? <==>
            forall i :: 0 <= i < |items| ==> items[i].Map? && Shaped(items[i])
    decreases items, 1
  {
    if items != [] {
      var init, last := items[..|items| - 1], items[|items| - 1];
      ItemsRenderIff(init, prolog);
      if last.Map? {
        EntriesRenderIff(last.entries, prolog);
      }
      var all := forall i :: 0 <= i < |items| ==> items[i].Map? && Shaped(items[i]);
      var allInit := forall i :: 0 <= i < |init| ==> init[i].Map? && Shaped(init[i]);
      assert all <==> allInit && last.Map? && Shaped(last) by {
        if allInit && last.Map? && Shaped(last) {
          forall i | 0 <= i < |items| ensures items[i].Map? && Shaped(items[i]) {
            if i < |items| - 1 { assert items[i] == init[i]; }
          }
        }
        if all {
          forall i | 0 <= i < |init| ensures init[i].Map? && Shaped(init[i]) {
            assert init[i] == items[i];
          }
        }
      }
    }
  }

  /** A scalar entry is `<key>` + escaped text + `</key>`; a Hash or Array
      entry wraps its value's rendering in the same element. */
  lemma SingleEntry(key: string, v: Value, prolog: string)
    ensures !IsCompound(v) ==>
      RenderMap([Entry(key, v)], prolog) == Some(prolog + Element(key, EscapeText(v.text)))
    ensures IsCompound(v) && Shaped(v) ==>
      RenderValue(v, prolog).Some? &&
      RenderMap([Entry(key, v)], prolog) == Some(prolog + Element(key, RenderValue(v, prolog).value))
  {
    var es := [Entry(key, v)];
    assert es[..0] == [];
    assert RenderEntries(es[..0], prolog) == Some("");
    ValueRendersIff(v, prolog);
    var x := RenderEntry(es[0], prolog);
    assert RenderEntries(es, prolog) == Join(Some(""), x);
    if x.Some? {
      assert "" + x.value == x.value;
    }
  }

  /** The empty Hash renders as the prolog alone (`""` by default). */
  lemma EmptyMap(prolog: string)
    ensures RenderMap([], prolog) == Some(prolog)
  {
    assert prolog + "" == prolog;
  }

  /** The self-test value `{ success: true }` always renders. */
  lemma SelfTestRenders(prolog: string)
    ensures RenderMap(SelfTestData, prolog) == Some(prolog + "<success>true</success>")
  {
    SingleEntry("success", Scalar("true"), prolog);
    assert NoMarkupChars("true");
    EscapeOfPlainText("true");
    SuccessElement();
  }

  lemma SuccessElement()
    ensures Element("success", "true") == "<success>true</success>"
  {
    assert "<" + "success" + ">" == "<success>";
    assert "</" + "success" + ">" == "</success>";
  }

  /** The example of the request spec, encoded with the default prolog. */
  lemma UserExample()
    ensures EncodeValue(Map([Entry("user", Map([Entry("name", Scalar("Erik Michaels-Ober")),
                                                Entry("screen_name", Scalar("sferik"))]))]), "")
         == Some("<user>" + "<name>" + "Erik Michaels-Ober" + "</name>" +
                 "<screen_name>" + "sferik" + "</screen_name>" + "</user>")
  {
    PlainName();
    PlainScreenName();
    UserShape("Erik Michaels-Ober", "sferik");
  }

  lemma UserShape(name: string, screenName: string)
    requires EscapeText(name) == name && EscapeText(screenName) == screenName
    ensures EncodeValue(Map([Entry("user", Map([Entry("name", Scalar(name)),
                                                Entry("screen_name", Scalar(screenName))]))]), "")
         == Some("<user>" + "<name>" + name + "</name>" + "<screen_name>" + screenName + "</screen_name>" + "</user>")
  {
    var inner := [Entry("name", Scalar(name)), Entry("screen_name", Scalar(screenName))];
    var a, b := Element("name", name), Element("screen_name", screenName);
    InnerUser(name, screenName);
    SingleEntry("user", Map(inner), "");
    assert RenderMap([Entry("user", Map(inner))], "") == Some("" + Element("user", a + b));
    assert "" + Element("user", a + b) == Element("user", a + b);
    UserTags(name, screenName);
  }

  lemma InnerUser(name: string, screenName: string)
    requires EscapeText(name) == name && EscapeText(screenName) == screenName
    ensures var inner := [Entry("name", Scalar(name)), Entry("screen_name", Scalar(screenName))];
      Shaped(Map(inner)) &&
      RenderValue(Map(inner), "") == Some(Element("name", name) + Element("screen_name", screenName))
  {
    TwoPlainEntries("name", name, "screen_name", screenName);
  }

  /** A Hash of two scalars free of markup characters, with no prolog. */
  lemma TwoPlainEntries(k0: string, t0: string, k1: string, t1: string)
    requires EscapeText(t0) == t0 && EscapeText(t1) == t1
    ensures var inner := [Entry(k0, Scalar(t0)), Entry(k1, Scalar(t1))];
      Shaped(Map(inner)) && RenderValue(Map(inner), "") == Some(Element(k0, t0) + Element(k1, t1))
  {
    var inner := [Entry(k0, Scalar(t0)), Entry(k1, Scalar(t1))];
    var a, b := Element(k0, t0), Element(k1, t1);
    TwoScalarEntries(k0, t0, k1, t1, "");
    assert "" + a + b == a + b;
    assert Shaped(inner[0].value) && Shaped(inner[1].value);
  }

  lemma UserTags(name: string, screenName: string)
    ensures Element("user", Element("name", name) + Element("screen_name", screenName))
         == "<user>" + "<name>" + name + "</name>" + "<screen_name>" + screenName + "</screen_name>" + "</user>"
  {
    NameElement(name);
    ScreenNameElement(screenName);
    UserElement(Element("name", name) + Element("screen_name", screenName));
    NestedConcat("<user>", "</user>", "<name>", name, "</name>", "<screen_name>", screenName, "</screen_name>");
  }

  lemma NameElement(content: string)
    ensures Element("name", content) == "<name>" + content + "</name>"
  {
  }

  lemma ScreenNameElement(content: string)
    ensures Element("screen_name", content) == "<screen_name>" + content + "</screen_name>"
  {
  }

  lemma UserElement(content: string)
    ensures Element("user", content) == "<user>" + content + "</user>"
  {
  }

  /** Two elements inside a third, flattened. */
  lemma NestedConcat(open: string, close: string, o1: string, x: string, c1: string, o2: string, y: string, c2: string)
    ensures open + ((o1 + x + c1) + (o2 + y + c2)) + close == open + o1 + x + c1 + o2 + y + c2 + close
  {
  }

  lemma TwoScalarEntries(k0: string, t0: string, k1: string, t1: string, prolog: string)
    ensures RenderMap([Entry(k0, Scalar(t0)), Entry(k1, Scalar(t1))], prolog)
         == Some(prolog + Element(k0, EscapeText(t0)) + Element(k1, EscapeText(t1)))
  {
    var e0, e1 := Entry(k0, Scalar(t0)), Entry(k1, Scalar(t1));
    var x0, x1 := Element(k0, EscapeText(t0)), Element(k1, EscapeText(t1));
    OneEntry(e0, prolog);
    OneEntry(e1, prolog);
    assert RenderEntry(e0, prolog) == Some(x0);
    assert RenderEntry(e1, prolog) == Some(x1);
    RenderEntriesAppend([e0], [e1], prolog);
    assert [e0] + [e1] == [e0, e1];
    assert RenderEntries([e0, e1], prolog) == Join(Some(x0), Some(x1));
    assert RenderMap([e0, e1], prolog) == Join(Some(prolog), Some(x0 + x1));
    assert prolog + (x0 + x1) == prolog + x0 + x1;
  }

  lemma OneEntry(e: Entry, prolog: string)
    ensures RenderEntries([e], prolog) == RenderEntry(e, prolog)
  {
    assert [e][..0] == [];
    var x := RenderEntry(e, prolog);
    if x.Some? {
      assert "" + x.value == x.value;
    }
  }

  lemma PlainName()
    ensures EscapeText("Erik Michaels-Ober") == "Erik Michaels-Ober"
  {
    var name := "Erik Michaels-Ober";
    forall i | 0 <= i < |name| ensures !IsMarkupChar(name[i]) {
    }
    EscapeOfPlainText(name);
  }

  lemma PlainScreenName()
    ensures EscapeText("sferik") == "sferik"
  {
    assert NoMarkupChars("sferik");
    EscapeOfPlainText("sferik");
  }

  // ---------------------------------------------------------------------
  // build_xml_markup: option defaulting

  /** The options `build_xml_markup(skip_instruct: true)` hands to
      Builder: `{skip_instruct: true}` merged with the encoder options (which
      win), then `indent: 2` unless an `indent` key is present. */
  function MarkupOptions(encoderOptions: Options): (r: Options)
    ensures r.Keys == encoderOptions.Keys + {SkipInstructKey, IndentKey}
    ensures forall k :: k in encoderOptions ==> r[k] == encoderOptions[k]
    ensures SkipInstructKey !in encoderOptions ==> r[SkipInstructKey] == Bool(true)
    ensures IndentKey !in encoderOptions ==> r[IndentKey] == Int(DefaultIndent)
  {
    var merged := map[SkipInstructKey := Bool(true)] + encoderOptions;
    if IndentKey in merged then merged else merged[IndentKey := Int(DefaultIndent)]
  }

  /** What every fresh Builder writes before anything else: the XML
      declaration exactly when the `skip_instruct` it ends up with is falsy. */
  function Prolog(encoderOptions: Options): (r: string)
    ensures r == Declaration <==> SkipInstructKey in encoderOptions && !Truthy(encoderOptions[SkipInstructKey])
    ensures r == "" <==> !(SkipInstructKey in encoderOptions && !Truthy(encoderOptions[SkipInstructKey]))
  {
    if Truthy(MarkupOptions(encoderOptions)[SkipInstructKey]) then "" else Declaration
  }

  /** The result of `encode(data)` once the Builder backend is (or is not)
      resolved. The string is the `indent: 0` layout whatever `indent` holds:
      Builder's line breaks and indentation for a positive `indent`, the
      default 2 included, are not modelled. */
  function EncodeResult(resolved: bool, encoderOptions: Options, data: Value): (r: Result<string, Error>)
    ensures !resolved ==> r == Failure(MissingDependencies(BuilderMissing))
    ensures resolved && data.Map? && Shaped(data) ==>
      r.Success? && Some(r.value) == RenderMap(data.entries, Prolog(encoderOptions))
    ensures resolved && !(data.Map? && Shaped(data)) ==> r == Failure(NoMethodError("each_pair"))
  {
    if !resolved then Failure(MissingDependencies(BuilderMissing))
    else
      var x := EncodeValue(data, Prolog(encoderOptions));
      if x.Some? then Success(x.value) else Failure(NoMethodError("each_pair"))
  }

  // ---------------------------------------------------------------------
  // The rendering as the source runs it: loops appending to a markup buffer

  /** `parameters_as_xml` */
  method ParametersAsXml(es: seq<Entry>, prolog: string) returns (r: Option<string>)
    ensures r == RenderMap(es, prolog)
    decreases es, 1
  {
    var markup := prolog;
    var i := 0;
    while i < |es|
      invariant 0 <= i <= |es|
      invariant RenderEntries(es[..i], prolog).Some?
      invariant markup == prolog + RenderEntries(es[..i], prolog).value
    {
      var key := es[i].key;
      var value := es[i].value;
      var xml: string;
      if IsCompound(value) {
        var inner := ParameterAsXml(value, prolog);
        if inner.None? {
          EntriesFailurePropagates(es, i, prolog);
          return None;
        }
        xml := Element(key, inner.value);
      } else {
        var text := ParameterAsXml(value, prolog);
        xml := Element(key, text.value);
      }
      EntriesStep(es, i, prolog, markup, xml);
      markup := markup + xml;
      i := i + 1;
    }
    assert es[..|es|] == es;
    r := Some(markup);
  }

  lemma EntriesStep(es: seq<Entry>, i: nat, prolog: string, markup: string, xml: string)
    requires i < |es| && RenderEntries(es[..i], prolog).Some?
    requires markup == prolog + RenderEntries(es[..i], prolog).value
    requires RenderEntry(es[i], prolog) == Some(xml)
    ensures RenderEntries(es[..i + 1], prolog).Some?
    ensures markup + xml == prolog + RenderEntries(es[..i + 1], prolog).value
  {
    assert es[..i + 1][..i] == es[..i];
  }

  /** A failing entry makes the whole Hash fail. */
  lemma EntriesFailurePropagates(es: seq<Entry>, i: nat, prolog: string)
    requires i < |es| && RenderEntries(es[..i + 1], prolog).None?
    ensures RenderEntries(es, prolog).None?
  {
    RenderEntriesAppend(es[..i + 1], es[i + 1..], prolog);
    assert es[..i + 1] + es[i + 1..] == es;
  }

  /** A failing item makes the whole Array fail. */
  lemma ItemsFailurePropagates(items: seq<Value>, i: nat, prolog: string)
    requires i < |items| && RenderItems(items[..i + 1], prolog).None?
    ensures RenderItems(items, prolog).None?
  {
    RenderItemsAppend(items[..i + 1], items[i + 1..], prolog);
    assert items[..i + 1] + items[i + 1..] == items;
  }

  lemma ItemsStep(items: seq<Value>, i: nat, prolog: string)
    requires i < |items|
    ensures RenderItems(items[..i + 1], prolog) ==
            Join(RenderItems(items[..i], prolog), if items[i].Map? then RenderMap(items[i].entries, prolog) else None)
  {
    assert items[..i + 1][..i] == items[..i];
  }

  /** `_parameter_as_xml` */
  method ParameterAsXml(v: Value, prolog: string) returns (r: Option<string>)
    ensures r == RenderValue(v, prolog)
    decreases v, 2
  {
    match v
    case Map(es) => r := ParametersAsXml(es, prolog);
    case List(items) => r := ParameterAsListXml(items, prolog);
    case Scalar(t) => r := Some(EscapeText(t));
  }

  /** `_parameter_as_list_xml` */
  method ParameterAsListXml(items: seq<Value>, prolog: string) returns (r: Option<string>)
    ensures r == RenderList(items, prolog)
    decreases items, 1
  {
    var markup := prolog;
    var i := 0;
    while i < |items|
      invariant 0 <= i <= |items|
      invariant RenderItems(items[..i], prolog).Some?
      invariant markup == prolog + RenderItems(items[..i], prolog).value
    {
      var item := items[i];
      ItemsStep(items, i, prolog);
      var xml: Option<string> := None;
      if item.Map? {
        xml := ParametersAsXml(item.entries, prolog);
      }
      if xml.None? {
        ItemsFailurePropagates(items, i, prolog);
        return None;
      }
      markup := markup + xml.value;
      i := i + 1;
    }
    assert items[..|items|] == items;
    r := Some(markup);
  }

  // ---------------------------------------------------------------------
  // The Encoder object and its memoised backend

  /** The lambda `set_encoder` builds once Builder is loadable. */
  datatype Renderer = BuilderMarkup

  /** `@encoder ||= (Builder loadable ? lambda : nil)` */
  function FillRenderer(cell: Option<Renderer>, builderAvailable: bool): (r: Option<Renderer>)
    ensures cell.Some? ==> r == cell
    ensures cell.None? ==> (r.Some? <==> builderAvailable)
  {
    if cell.Some? then cell else if builderAvailable then Some(BuilderMarkup) else None
  }

  class Encoder {
    /** `@encoder_options` */
    const options: Options
    /** `@encoder`, the memo cell */
    var handle: Option<Renderer>
    /** How many times the self-test `encode({ success: true })` has run. */
    ghost var selfTests: nat

    /** `initialize`: a nil option hash becomes `{}`. */
    constructor (encoderOptions: Option<Options>)
      ensures options == encoderOptions.GetOr(map[])
      ensures handle == None && selfTests == 0
    {
      options := encoderOptions.GetOr(map[]);
      handle := None;
      selfTests := 0;
    }

    /** `set_encoder`: never replaces a filled cell. */
    method SetEncoder(builderAvailable: bool) returns (h: Option<Renderer>)
      modifies this`handle
      ensures handle == FillRenderer(old(handle), builderAvailable)
      ensures h == handle
    {
      if handle.None? && builderAvailable {
        handle := Some(BuilderMarkup);
      }
      h := handle;
    }

    /** `encoder`: fills the cell on first success and runs the self-test
        exactly then; with no backend it raises and leaves the cell empty, so
        the next call probes again. */
    method Resolve(builderAvailable: bool) returns (r: Result<Renderer, Error>)
      modifies this`handle, this`selfTests
      ensures handle == FillRenderer(old(handle), builderAvailable)
      ensures r == if handle.Some? then Success(handle.value) else Failure(MissingDependencies(BuilderMissing))
      ensures selfTests == old(selfTests) + if old(handle).None? && handle.Some? then 1 else 0
    {
      if handle.None? {
        handle := SetEncoder(builderAvailable);
        if handle.Some? {
          var _ := ParametersAsXml(SelfTestData, Prolog(options));
          selfTests := selfTests + 1;
        }
      }
      if handle.None? {
        r := Failure(MissingDependencies(BuilderMissing));
      } else {
        r := Success(handle.value);
      }
    }

    /** `encode(data)`: `encoder.call(data)`. */
    method Encode(data: Value, builderAvailable: bool) returns (r: Result<string, Error>)
      modifies this`handle, this`selfTests
      ensures handle == FillRenderer(old(handle), builderAvailable)
      ensures selfTests == old(selfTests) + if old(handle).None? && handle.Some? then 1 else 0
      ensures r == EncodeResult(handle.Some?, options, data)
    {
      var renderer := Resolve(builderAvailable);
      if renderer.Failure? {
        return Failure(renderer.error);
      }
      var xml: Option<string> := None;
      if data.Map? {
        xml := ParametersAsXml(data.entries, Prolog(options));
      }
      if xml.Some? {
        r := Success(xml.value);
      } else {
        r := Failure(NoMethodError("each_pair"));
      }
    }

    /** `Encoder.build!`: an encoder whose backend is already resolved, or the
        missing-dependency error. */
    static method Build(encoderOptions: Option<Options>, builderAvailable: bool) returns (r: Result<Encoder, Error>)
      ensures r.Success? <==> builderAvailable
      ensures r.Success? ==> fresh(r.value) && r.value.handle == Some(BuilderMarkup) &&
                             r.value.options == encoderOptions.GetOr(map[]) && r.value.selfTests == 1
      ensures r.Failure? ==> r.error == MissingDependencies(BuilderMissing)
    {
      var encoder := new Encoder(encoderOptions);
      var h := encoder.Resolve(builderAvailable);
      if h.Failure? {
        return Failure(h.error);
      }
      r := Success(encoder);
    }
  }
}
