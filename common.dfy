/** Values shared by every handler: optional request fields, document ids,
    JavaScript numbers and the three ways a handler answers. */
module Common {

  datatype Option<+T> = None | Some(value: T)

  /** A document id (a Mongo ObjectId), compared the way the handlers compare
      them: by their string form, which is equality here. */
  type Id = nat

  /** The values JavaScript's `Number(...)` conversion can produce. */
  datatype Num = NaN | Finite(value: real) | Infinity(negative: bool)

  /** A numeric text submitted in a form, together with the value `Number(raw)`
      gives for it. The conversion itself belongs to JavaScript and is not
      modelled; the request supplies both halves. */
  datatype NumText = NumText(raw: string, asNumber: Num)

  /** A multipart form field that may be sent zero, one or several times:
      absent, a single string, or an array of strings. */
  datatype FormField = Absent | One(text: string) | Many(texts: seq<string>)

  /** How a handler answers a request.
      - Ok: `res.status(status).json(body)`.
      - Err: `res.status(status).json({ message })` (or `.send(message)`).
      - Thrown: `res.status(status)` (if any) followed by `throw new Error(message)`,
        which hands the error to the application's error handler. */
  datatype Response<+T> =
    | Ok(status: nat, body: T)
    | Err(status: nat, message: string)
    | Thrown(statusSet: Option<nat>, message: string)

  /** JavaScript truthiness of an optional string field: present and not "". */
  predicate Truthy(o: Option<string>) {
    o.Some? && o.value != ""
  }
}
