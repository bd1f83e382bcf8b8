/** The XML decoder façade of lib/faraday/xml/parser.rb: a once-set cell
    filled from a priority list of optional backend libraries, followed by
    a one-time self-test. The libraries themselves are an opaque, possibly
    failing function `library` from the call made to the result it gives;
    which libraries can be loaded is an input of every step. The response
    middleware keeps the same cell in its own `@parser` (response.rb). */
module XmlParser {
  import opened XmlValues

  const ParserMissing: string := "Missing dependencies ActiveSupport::XmlMini or MultiXml"

  /** The document the self-test parses. */
  const SelfTestDocument: string := "<success>true</success>"

  const DisallowedTypesKey: string := "disallowed_types"

  /** The two lambdas `set_parser` can store in the cell. */
  datatype Backend = MultiXml | ActiveSupport

  /** Which of the backends `require` can load at the time of a call. */
  datatype Availability = Availability(multiXml: bool, activeSupport: bool)

  /** A call into an XML library: `::MultiXml.parse(xml, options)` or
      `Hash.from_xml(xml, disallowed_types)`. */
  datatype LibraryCall =
    | MultiXmlParse(xml: string, options: Options)
    | HashFromXml(xml: string, disallowedTypes: OptionValue)

  /** What an XML library answers to a call. */
  type Library = LibraryCall -> Result<Value, Fault>

  /** The call the stored lambda makes for `call(xml, options)`. */
  function Invocation(b: Backend, xml: string, options: Options): (r: LibraryCall)
    ensures r.xml == xml
    ensures b == MultiXml ==> r.MultiXmlParse? && r.options == options
    ensures b == ActiveSupport ==> r.HashFromXml?
    ensures b == ActiveSupport && DisallowedTypesKey in options ==> r.disallowedTypes == options[DisallowedTypesKey]
    ensures b == ActiveSupport && DisallowedTypesKey !in options ==> r.disallowedTypes == Nil
  {
    match b
    case MultiXml => MultiXmlParse(xml, options)
    case ActiveSupport => HashFromXml(xml, Lookup(options, DisallowedTypesKey))
  }

  /** The two `@parser ||= begin require ...; lambda rescue LoadError end` steps:
      a filled cell is kept; an empty one takes MultiXml if it loads, else
      ActiveSupport if it loads, else stays empty. */
  function FillParser(cell: Option<Backend>, avail: Availability): (r: Option<Backend>)
    ensures cell.Some? ==> r == cell
    ensures cell.None? && avail.multiXml ==> r == Some(MultiXml)
    ensures cell.None? && !avail.multiXml && avail.activeSupport ==> r == Some(ActiveSupport)
    ensures cell.None? && !avail.multiXml && !avail.activeSupport ==> r == None
  {
    var first := if cell.Some? then cell else if avail.multiXml then Some(MultiXml) else None;
    if first.Some? then first else if avail.activeSupport then Some(ActiveSupport) else None
  }

  /** The outcome of `parser` on a cell in state `cell`: the cell's backend;
      the missing-dependency error when nothing loads; or, on the call that
      fills the cell, the failure the self-test raises (the cell stays
      filled). `testOptions` are the options the self-test passes. */
  function ResolveResult(cell: Option<Backend>, avail: Availability, library: Library, testOptions: Options)
    : (r: Result<Backend, Error>)
    ensures cell.Some? ==> r == Success(cell.value)
    ensures FillParser(cell, avail).None? <==> r == Failure(MissingDependencies(ParserMissing))
    ensures r.Success? ==> Some(r.value) == FillParser(cell, avail)
    ensures cell.None? && FillParser(cell, avail).Some? ==>
      var b := FillParser(cell, avail).value;
      var test := library(Invocation(b, SelfTestDocument, testOptions));
      r == if test.Success? then Success(b) else Failure(LibraryFailure(test.error))
  {
    var h := FillParser(cell, avail);
    if h.None? then Failure(MissingDependencies(ParserMissing))
    else if cell.Some? then Success(h.value)
    else
      var test := library(Invocation(h.value, SelfTestDocument, testOptions));
      if test.Success? then Success(h.value) else Failure(LibraryFailure(test.error))
  }

  /** `parser.call(xml, options)`: resolve the cell, then call its backend. */
  function CallResult(cell: Option<Backend>, avail: Availability, library: Library,
                      testOptions: Options, xml: string, options: Options): (r: Result<Value, Error>)
    ensures ResolveResult(cell, avail, library, testOptions).Failure? ==>
      r == Failure(ResolveResult(cell, avail, library, testOptions).error)
    ensures ResolveResult(cell, avail, library, testOptions).Success? ==>
      var call := library(Invocation(ResolveResult(cell, avail, library, testOptions).value, xml, options));
      r == if call.Success? then Success(call.value) else Failure(LibraryFailure(call.error))
  {
    var resolved := ResolveResult(cell, avail, library, testOptions);
    if resolved.Failure? then Failure(resolved.error)
    else
      var call := library(Invocation(resolved.value, xml, options));
      if call.Success? then Success(call.value) else Failure(LibraryFailure(call.error))
  }

  // ---------------------------------------------------------------------
  // A run of calls against one cell

  /** The cell after a run of `parser` calls made with the given availabilities. */
  function CellAfter(cell: Option<Backend>, run: seq<Availability>): Option<Backend>
    decreases |run|
  {
    if run == [] then cell else CellAfter(FillParser(cell, run[0]), run[1..])
  }

  /** How many calls of the run filled the cell, and so ran the self-test. */
  function SelfTestsDuring(cell: Option<Backend>, run: seq<Availability>): nat
    decreases |run|
  {
    if run == [] then 0
    else
      var next := FillParser(cell, run[0]);
      (if cell.None? && next.Some? then 1 else 0) + SelfTestsDuring(next, run[1..])
  }

  predicate AnyLoadable(a: Availability) {
    a.multiXml || a.activeSupport
  }

  /** A filled cell is never replaced and never tested again. */
  lemma {:induction false} FilledCellKept(b: Backend, run: seq<Availability>)
    ensures CellAfter(Some(b), run) == Some(b)
    ensures SelfTestsDuring(Some(b), run) == 0
  {
    if run != [] {
      FilledCellKept(b, run[1..]);
    }
  }

  /** Over any run of calls the self-test runs at most once, and exactly
      once if some call can load a backend. */
  lemma {:induction false} SelfTestAtMostOnce(run: seq<Availability>)
    ensures SelfTestsDuring(None, run) <= 1
    ensures SelfTestsDuring(None, run) == 1 <==> exists i :: 0 <= i < |run| && AnyLoadable(run[i])
  {
    if run != [] {
      var next := FillParser(None, run[0]);
      if next.Some? {
        FilledCellKept(next.value, run[1..]);
      } else {
        SelfTestAtMostOnce(run[1..]);
        if exists i :: 0 <= i < |run[1..]| && AnyLoadable(run[1..][i]) {
          var i :| 0 <= i < |run[1..]| && AnyLoadable(run[1..][i]);
          assert AnyLoadable(run[i + 1]);
        }
        if exists i :: 0 <= i < |run| && AnyLoadable(run[i]) {
          var i :| 0 <= i < |run| && AnyLoadable(run[i]);
          assert i > 0 && AnyLoadable(run[1..][i - 1]);
        }
      }
    }
  }

  /** The backend kept is the one selected by the first call that can load
      one, whatever loads later. */
  lemma {:induction false} FirstLoadableWins(run: seq<Availability>, k: nat)
    requires k < |run| && AnyLoadable(run[k])
    requires forall j :: 0 <= j < k ==> !AnyLoadable(run[j])
    ensures CellAfter(None, run) == FillParser(None, run[k])
  {
    var next := FillParser(None, run[0]);
    if k == 0 {
      FilledCellKept(next.value, run[1..]);
    } else {
      assert !AnyLoadable(run[0]);
      assert run[1..][k - 1] == run[k];
      assert forall j :: 0 <= j < k - 1 ==> run[1..][j] == run[j + 1];
      FirstLoadableWins(run[1..], k - 1);
    }
  }

  /** While nothing loads, the cell stays empty. */
  lemma {:induction false} NothingLoadableStaysEmpty(run: seq<Availability>)
    requires forall i :: 0 <= i < |run| ==> !AnyLoadable(run[i])
    ensures CellAfter(None, run) == None
    ensures SelfTestsDuring(None, run) == 0
  {
    if run != [] {
      assert forall i :: 0 <= i < |run[1..]| ==> run[1..][i] == run[i + 1];
      NothingLoadableStaysEmpty(run[1..]);
    }
  }

  class Parser {
    /** `@parser`, the memo cell */
    var handle: Option<Backend>
    /** How many times the self-test `parse('<success>true</success>')` has run. */
    ghost var selfTests: nat

    constructor ()
      ensures handle == None && selfTests == 0
    {
      handle := None;
      selfTests := 0;
    }

    /** `set_parser` */
    method SetParser(avail: Availability) returns (h: Option<Backend>)
      modifies this`handle
      ensures handle == FillParser(old(handle), avail)
      ensures h == handle
    {
      if handle.None? && avail.multiXml {
        handle := Some(MultiXml);
      }
      if handle.None? && avail.activeSupport {
        handle := Some(ActiveSupport);
      }
      h := handle;
    }

    /** `parser`: fills the cell, then runs the self-test with `testOptions`
        exactly on the call that filled it. */
    method Resolve(avail: Availability, library: Library, testOptions: Options) returns (r: Result<Backend, Error>)
      modifies this`handle, this`selfTests
      ensures handle == FillParser(old(handle), avail)
      ensures selfTests == old(selfTests) + if old(handle).None? && handle.Some? then 1 else 0
      ensures r == ResolveResult(old(handle), avail, library, testOptions)
    {
      if handle.None? {
        handle := SetParser(avail);
        if handle.Some? {
          selfTests := selfTests + 1;
          var test := library(Invocation(handle.value, SelfTestDocument, testOptions));
          if test.Failure? {
            return Failure(LibraryFailure(test.error));
          }
        }
      }
      if handle.None? {
        r := Failure(MissingDependencies(ParserMissing));
      } else {
        r := Success(handle.value);
      }
    }

    /** `parse(xml, parser_options = {})`; `None` is the omitted argument. */
    method Parse(xml: string, parserOptions: Option<Options>, avail: Availability, library: Library)
      returns (r: Result<Value, Error>)
      modifies this`handle, this`selfTests
      ensures handle == FillParser(old(handle), avail)
      ensures selfTests == old(selfTests) + if old(handle).None? && handle.Some? then 1 else 0
      ensures r == CallResult(old(handle), avail, library, map[], xml, parserOptions.GetOr(map[]))
    {
      var backend := Resolve(avail, library, map[]);
      if backend.Failure? {
        return Failure(backend.error);
      }
      var call := library(Invocation(backend.value, xml, parserOptions.GetOr(map[])));
      if call.Failure? {
        r := Failure(LibraryFailure(call.error));
      } else {
        r := Success(call.value);
      }
    }

    /** `Parser.build!`: a parser whose cell is filled, or the error that
        resolving it raised. */
    static method Build(avail: Availability, library: Library) returns (r: Result<Parser, Error>)
      ensures r.Success? <==> ResolveResult(None, avail, library, map[]).Success?
      ensures r.Success? ==> fresh(r.value) && r.value.handle == FillParser(None, avail) &&
                             r.value.handle.Some? && r.value.selfTests == 1
      ensures r.Failure? ==> r.error == ResolveResult(None, avail, library, map[]).error
    {
      var parser := new Parser();
      var h := parser.Resolve(avail, library, map[]);
      if h.Failure? {
        return Failure(h.error);
      }
      r := Success(parser);
    }
  }
}
