/** Express route tables: each route has a method, a path pattern, whether
    `protect` runs first, which upload step runs, and its handler. A request
    goes to the first route, in registration order, that matches it.
    `express.Router()` is case-insensitive by default, so fixed segments
    match whatever the case of their letters. */
module Routing {
  import opened Common
  import opened JsText

  datatype Verb = GET | POST | PUT | DELETE

  /** A pattern segment: fixed text, or a `:name` parameter, which matches
      any non-empty segment. */
  datatype PathPart = Lit(text: string) | Param(name: string)

  /** The multer step on a route: none, or `array(field, maxCount)`
      (`single(field)` is a count of one). */
  datatype UploadStep = NoUpload | Files(field: string, maxCount: nat)

  datatype Route<H> = Route(verb: Verb, pattern: seq<PathPart>, protected: bool, upload: UploadStep, handler: H)

  /** A fixed segment matches when both agree once lower-cased
      (`SameIgnoringCaseIffLowerEqual`). */
  predicate PartMatches(p: PathPart, segment: string) {
    match p
    case Lit(text) => SameIgnoringCase(segment, text)
    case Param(_) => segment != ""
  }

  /** The request path, split at "/", matches the pattern segment by segment. */
  predicate PatternMatches(pattern: seq<PathPart>, segments: seq<string>) {
    |pattern| == |segments| && forall i :: 0 <= i < |pattern| ==> PartMatches(pattern[i], segments[i])
  }

  predicate RouteMatches<H>(r: Route<H>, verb: Verb, segments: seq<string>) {
    r.verb == verb && PatternMatches(r.pattern, segments)
  }

  /** The index of the route a request reaches: the first that matches. */
  function Resolve<H>(table: seq<Route<H>>, verb: Verb, segments: seq<string>): (r: Option<nat>)
    ensures r.Some? ==> r.value < |table| && RouteMatches(table[r.value], verb, segments)
    ensures r.Some? ==> forall j :: 0 <= j < r.value ==> !RouteMatches(table[j], verb, segments)
    ensures r.None? <==> forall j :: 0 <= j < |table| ==> !RouteMatches(table[j], verb, segments)
  {
    if table == [] then None
    else if RouteMatches(table[0], verb, segments) then Some(0)
    else
      match Resolve(table[1..], verb, segments)
      case None => None
      case Some(i) =>
        assert forall j :: 1 <= j < |table| ==> table[j] == table[1..][j - 1];
        Some(i + 1)
  }

  /** A request reaches route `k` when route `k` matches it and no earlier one does. */
  lemma ResolvesTo<H>(table: seq<Route<H>>, verb: Verb, segments: seq<string>, k: nat)
    requires k < |table| && RouteMatches(table[k], verb, segments)
    requires forall j :: 0 <= j < k ==> !RouteMatches(table[j], verb, segments)
    ensures Resolve(table, verb, segments) == Some(k)
  {
  }
}
