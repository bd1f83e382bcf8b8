/** Shared vocabulary of the XML middleware model: the structured values the
    encoder consumes and the decoder produces, Ruby option hashes, request and
    response bodies, and the errors the middleware can raise. */
module XmlValues {

  datatype Option<+T> = None | Some(value: T) {
    function GetOr(default: T): T {
      match this
      case Some(v) => v
      case None => default
    }
  }

  datatype Result<+R, +E> = Success(value: R) | Failure(error: E)

  /** The outcome of a step that changes state and may raise. */
  datatype Outcome<+E> = Pass | Fail(error: E)

  /** A structured value: a scalar (held as the text its `to_s` gives), a Hash
      whose entries keep their insertion order, or an Array. */
  datatype Value =
    | Scalar(text: string)
    | Map(entries: seq<Entry>)
    | List(items: seq<Value>)

  /** One key/value pair of a Hash; the key is the text its `to_s` gives. */
  datatype Entry = Entry(key: string, value: Value)

  /** A value stored in a Ruby options hash (keys are the names of symbols). */
  datatype OptionValue =
    | Nil
    | Bool(b: bool)
    | Int(i: int)
    | Str(s: string)
    | Items(elements: seq<OptionValue>)

  type Options = map<string, OptionValue>

  /** Ruby truthiness: only `nil` and `false` are falsy. */
  predicate Truthy(v: OptionValue) {
    !(v.Nil? || v == Bool(false))
  }

  /** `options[key]`: `nil` when the key is absent. */
  function Lookup(options: Options, key: string): (r: OptionValue)
    ensures key !in options ==> r == Nil
    ensures key in options ==> r == options[key]
  {
    if key in options then options[key] else Nil
  }

  /** A body of a request or response env: `nil`, a String (anything that
      responds to `to_str`), or structured data. */
  datatype Body = NoBody | Text(text: string) | Data(data: Value)

  /** The failure an XML library reports, collapsed to its message. */
  datatype Fault = Fault(message: string)

  /** The handle of the in-flight response, opaque to the middleware. */
  datatype ResponseHandle = ResponseHandle(id: nat)

  datatype Error =
    | MissingDependencies(message: string)
      // `raise '...'` when no backend library can be loaded
    | NoMethodError(name: string)
      // a value that is not a Hash reached `each_pair`
    | LibraryFailure(fault: Fault)
      // the backend parser raised
    | ParsingError(cause: Error, response: Option<ResponseHandle>)
      // `Faraday::ParsingError.new(e, env[:response])`
}
