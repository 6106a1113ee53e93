/** The listing schema (models/Listing.js): the stored record, the defaults
    and trimming applied when a document is built, and the validators that run
    when it is saved or updated. */
module ListingSchema {
  import opened Common
  import opened JsText

  const Categories: seq<string> :=
    ["Tractors and Machinery", "Fertilizers", "Crop Seeds", "Irrigation Systems", "Veggies", "More"]
  const Conditions: seq<string> :=
    ["New", "Used - Like New", "Used - Good", "Used - Fair", "For Parts"]
  const DefaultCondition: string := "Used - Good"
  const TitleMaxLength: nat := 100
  const DescriptionMaxLength: nat := 1000

  /** A listing as stored. `createdAt` stands for the timestamps the schema adds. */
  datatype Listing = Listing(
    title: string,
    description: string,
    price: Num,
    isNegotiable: bool,
    category: string,
    condition: string,
    location: string,
    images: seq<string>,
    seller: Id,
    createdAt: nat)

  /** One failed validator, at most one per path. */
  datatype SchemaError =
    | Required(path: string)
    | TooLong(path: string)
    | BelowMinimum(path: string)
    | NotInEnum(path: string, value: string)
    | CastFailed(path: string)

  /** The schema's own message for each failure (Mongoose's default where the
      schema gives none). */
  function ErrorMessage(e: SchemaError): string {
    match e
    case Required(p) =>
      if p == "title" then "Please add a title for the listing"
      else if p == "description" then "Please add a description"
      else if p == "price" then "Please add a price"
      else if p == "category" then "Please select a category"
      else if p == "location" then "Please add a location"
      else "Path `" + p + "` is required."
    case TooLong(p) =>
      if p == "title" then "Title cannot be more than 100 characters"
      else "Description cannot be more than 1000 characters"
    case BelowMinimum(_) => "Price cannot be negative"
    case NotInEnum(p, v) => "`" + v + "` is not a valid enum value for path `" + p + "`."
    case CastFailed(p) => "Cast to Number failed for value \"NaN\" (type number) at path \"" + p + "\""
  }

  function Path(e: SchemaError): string {
    e.path
  }

  /** The message of the ValidationError a failed `save()` raises:
      "Listing validation failed: " then "path: message" per failure, joined by ", ". */
  function ValidationFailure(errors: seq<SchemaError>): string {
    "Listing validation failed: " + Join(PathMessages(errors), ", ")
  }

  function PathMessages(errors: seq<SchemaError>): (r: seq<string>)
    ensures |r| == |errors|
  {
    if errors == [] then [] else [Path(errors[0]) + ": " + ErrorMessage(errors[0])] + PathMessages(errors[1..])
  }

  /** A required, length-limited string: empty after trimming fails `required`,
      then the length in UTF-16 units is checked. */
  function BoundedTextErrors(path: string, v: string, maxLength: nat): (r: seq<SchemaError>)
    ensures AtMostOneAt(r, path)
  {
    if v == "" then [Required(path)]
    else if Utf16Length(v) > maxLength then [TooLong(path)]
    else []
  }

  function PriceErrors(p: Num): (r: seq<SchemaError>)
    ensures AtMostOneAt(r, "price")
  {
    match p
    case NaN => [CastFailed("price")]
    case Finite(v) => if v < 0.0 then [BelowMinimum("price")] else []
    case Infinity(negative) => if negative then [BelowMinimum("price")] else []
  }

  function CategoryErrors(c: string): (r: seq<SchemaError>)
    ensures AtMostOneAt(r, "category")
  {
    if c == "" then [Required("category")]
    else if c !in Categories then [NotInEnum("category", c)]
    else []
  }

  function ConditionErrors(c: string): (r: seq<SchemaError>)
    ensures AtMostOneAt(r, "condition")
  {
    if c !in Conditions then [NotInEnum("condition", c)] else []
  }

  function LocationErrors(l: string): (r: seq<SchemaError>)
    ensures AtMostOneAt(r, "location")
  {
    if l == "" then [Required("location")] else []
  }

  /** The price validator, which runs only on a price that was cast. */
  function PriceValidatorErrors(p: Num): (r: seq<SchemaError>)
    ensures AtMostOneAt(r, "price")
  {
    if p.NaN? then [] else PriceErrors(p)
  }

  /** A NaN price fails when the document is built, before `save()` runs
      any validator, so its CastError is recorded first. */
  function CastErrors(p: Num): (r: seq<SchemaError>)
    ensures AtMostOneAt(r, "price")
  {
    if p.NaN? then [CastFailed("price")] else []
  }

  /** The errors of a failed `save()`: the cast error, if any, then the
      validators in schema order, which skip a path that failed to cast.
      The seller is always set here, since the record's type gives it one. */
  function Errors(l: Listing): (r: seq<SchemaError>)
    ensures |r| <= 6
    ensures OnePerPath(r)
  {
    ErrorPieces(l);
    OnePerPathOfPieces(CastErrors(l.price), BoundedTextErrors("title", l.title, TitleMaxLength),
      BoundedTextErrors("description", l.description, DescriptionMaxLength), PriceValidatorErrors(l.price),
      CategoryErrors(l.category), ConditionErrors(l.condition), LocationErrors(l.location));
    CastErrors(l.price)
    + BoundedTextErrors("title", l.title, TitleMaxLength)
    + BoundedTextErrors("description", l.description, DescriptionMaxLength)
    + PriceValidatorErrors(l.price)
    + CategoryErrors(l.category)
    + ConditionErrors(l.condition)
    + LocationErrors(l.location)
  }

  /** At most one error, and that one on `path`. */
  predicate AtMostOneAt(errors: seq<SchemaError>, path: string) {
    |errors| <= 1 && forall i :: 0 <= i < |errors| ==> errors[i].path == path
  }

  /** No two errors share a path. */
  predicate OnePerPath(errors: seq<SchemaError>) {
    forall i, j :: 0 <= i < j < |errors| ==> errors[i].path != errors[j].path
  }

  lemma ErrorPieces(l: Listing)
    ensures AtMostOneAt(CastErrors(l.price), "price")
    ensures AtMostOneAt(BoundedTextErrors("title", l.title, TitleMaxLength), "title")
    ensures AtMostOneAt(BoundedTextErrors("description", l.description, DescriptionMaxLength), "description")
    ensures AtMostOneAt(PriceValidatorErrors(l.price), "price")
    ensures AtMostOneAt(CategoryErrors(l.category), "category")
    ensures AtMostOneAt(ConditionErrors(l.condition), "condition")
    ensures AtMostOneAt(LocationErrors(l.location), "location")
    ensures CastErrors(l.price) == [] || PriceValidatorErrors(l.price) == []
  {
  }

  /** Each validator reports at most once, on its own path, and the cast
      error and the price validator never both report: so no path is
      reported twice. */
  lemma OnePerPathOfPieces(cast: seq<SchemaError>, title: seq<SchemaError>, description: seq<SchemaError>,
                           price: seq<SchemaError>, category: seq<SchemaError>, condition: seq<SchemaError>,
                           location: seq<SchemaError>)
    requires AtMostOneAt(cast, "price") && AtMostOneAt(title, "title") && AtMostOneAt(description, "description")
    requires AtMostOneAt(price, "price") && AtMostOneAt(category, "category")
    requires AtMostOneAt(condition, "condition") && AtMostOneAt(location, "location")
    requires cast == [] || price == []
    ensures var r := cast + title + description + price + category + condition + location;
            |r| <= 6 && OnePerPath(r)
  {
    var front := cast + title + description + price;
    FrontPieces(cast, title, description, price);
    BackPieces(front, category, condition, location);
  }

  lemma FrontPieces(cast: seq<SchemaError>, title: seq<SchemaError>, description: seq<SchemaError>,
                    price: seq<SchemaError>)
    requires AtMostOneAt(cast, "price") && AtMostOneAt(title, "title") && AtMostOneAt(description, "description")
    requires AtMostOneAt(price, "price")
    requires cast == [] || price == []
    ensures var r := cast + title + description + price;
            |r| <= 3 && OnePerPath(r) && PathsIn(r, {"price", "title", "description"})
  {
    var paths: set<string> := if cast == [] then {} else {"price"};
    AppendAt(cast, title, paths, "title");
    AppendAt(cast + title, description, paths + {"title"}, "description");
    AppendAt(cast + title + description, price, paths + {"title", "description"}, "price");
  }

  lemma BackPieces(front: seq<SchemaError>, category: seq<SchemaError>, condition: seq<SchemaError>,
                   location: seq<SchemaError>)
    requires |front| <= 3 && OnePerPath(front) && PathsIn(front, {"price", "title", "description"})
    requires AtMostOneAt(category, "category") && AtMostOneAt(condition, "condition") && AtMostOneAt(location, "location")
    ensures var r := front + category + condition + location;
            |r| <= 6 && OnePerPath(r)
  {
    var paths: set<string> := {"price", "title", "description"};
    AppendAt(front, category, paths, "category");
    AppendAt(front + category, condition, paths + {"category"}, "condition");
    AppendAt(front + category + condition, location, paths + {"category", "condition"}, "location");
  }

  /** The paths of the errors all lie in `paths`. */
  predicate PathsIn(errors: seq<SchemaError>, paths: set<string>) {
    forall i :: 0 <= i < |errors| ==> errors[i].path in paths
  }

  /** Appending at most one error on a path not yet reported keeps one
      error per path. */
  lemma AppendAt(a: seq<SchemaError>, b: seq<SchemaError>, paths: set<string>, path: string)
    requires OnePerPath(a) && PathsIn(a, paths) && AtMostOneAt(b, path) && (b == [] || path !in paths)
    ensures OnePerPath(a + b) && PathsIn(a + b, paths + {path}) && |a + b| <= |a| + 1
  {
    assert forall i :: |a| <= i < |a + b| ==> (a + b)[i] == b[i - |a|];
  }

  /** A NaN price heads the error list, whatever else fails, and is
      reported once; a cast price adds no cast error. */
  lemma CastErrorFirst(l: Listing)
    ensures l.price.NaN? ==> |Errors(l)| > 0 && Errors(l)[0] == CastFailed("price")
    ensures l.price.NaN? ==> forall i :: 1 <= i < |Errors(l)| ==> Errors(l)[i].path != "price"
    ensures !l.price.NaN? ==> forall i :: 0 <= i < |Errors(l)| ==> !Errors(l)[i].CastFailed?
  {
    var text := BoundedTextErrors("title", l.title, TitleMaxLength)
      + BoundedTextErrors("description", l.description, DescriptionMaxLength);
    var enums := CategoryErrors(l.category) + ConditionErrors(l.condition) + LocationErrors(l.location);
    var price := PriceValidatorErrors(l.price);
    RegroupErrors(CastErrors(l.price), BoundedTextErrors("title", l.title, TitleMaxLength),
      BoundedTextErrors("description", l.description, DescriptionMaxLength), price,
      CategoryErrors(l.category), ConditionErrors(l.condition), LocationErrors(l.location));
    GroupsHaveNoCast(l);
    CastLeads(CastErrors(l.price), text, price, enums, Errors(l));
  }

  lemma RegroupErrors<T>(cast: seq<T>, t: seq<T>, d: seq<T>, p: seq<T>, c: seq<T>, co: seq<T>, lo: seq<T>)
    ensures cast + t + d + p + c + co + lo == cast + ((t + d) + p + (c + co + lo))
  {
  }

  /** Outside the cast error, only the price validator reports on "price". */
  lemma GroupsHaveNoCast(l: Listing)
    ensures var text := BoundedTextErrors("title", l.title, TitleMaxLength)
              + BoundedTextErrors("description", l.description, DescriptionMaxLength);
            var enums := CategoryErrors(l.category) + ConditionErrors(l.condition) + LocationErrors(l.location);
            && NoCast(text) && NoCast(enums) && NoCast(PriceValidatorErrors(l.price))
            && NotAt(text, "price") && NotAt(enums, "price")
            && (l.price.NaN? <==> CastErrors(l.price) != [])
            && (l.price.NaN? ==> CastErrors(l.price) == [CastFailed("price")] && PriceValidatorErrors(l.price) == [])
  {
  }

  lemma CastLeads(cast: seq<SchemaError>, text: seq<SchemaError>, price: seq<SchemaError>,
                  enums: seq<SchemaError>, all: seq<SchemaError>)
    requires all == cast + (text + price + enums)
    requires NoCast(text) && NoCast(price) && NoCast(enums) && NotAt(text, "price") && NotAt(enums, "price")
    requires cast == [] || (cast == [CastFailed("price")] && price == [])
    ensures cast != [] ==> |all| > 0 && all[0] == CastFailed("price")
    ensures cast != [] ==> forall i :: 1 <= i < |all| ==> all[i].path != "price"
    ensures cast == [] ==> NoCast(all)
  {
    NoCastConcat(text, price);
    NoCastConcat(text + price, enums);
    if cast != [] {
      assert text + price + enums == text + enums;
      NotAtConcat(text, enums, "price");
      assert forall i :: 1 <= i < |all| ==> all[i] == (text + enums)[i - 1];
    }
  }

  predicate NoCast(errors: seq<SchemaError>) {
    forall i :: 0 <= i < |errors| ==> !errors[i].CastFailed?
  }

  predicate NotAt(errors: seq<SchemaError>, path: string) {
    forall i :: 0 <= i < |errors| ==> errors[i].path != path
  }

  lemma NoCastConcat(a: seq<SchemaError>, b: seq<SchemaError>)
    requires NoCast(a) && NoCast(b)
    ensures NoCast(a + b)
  {
    assert forall i :: |a| <= i < |a + b| ==> (a + b)[i] == b[i - |a|];
  }

  lemma NotAtConcat(a: seq<SchemaError>, b: seq<SchemaError>, path: string)
    requires NotAt(a, path) && NotAt(b, path)
    ensures NotAt(a + b, path)
  {
    assert forall i :: |a| <= i < |a + b| ==> (a + b)[i] == b[i - |a|];
  }

  predicate PriceAllowed(p: Num) {
    (p.Finite? && p.value >= 0.0) || p == Infinity(false)
  }

  /** What the schema demands of a stored listing, stated directly. */
  predicate Conforms(l: Listing) {
    && l.title != "" && Utf16Length(l.title) <= TitleMaxLength
    && l.description != "" && Utf16Length(l.description) <= DescriptionMaxLength
    && PriceAllowed(l.price)
    && l.category in Categories
    && l.condition in Conditions
    && l.location != ""
  }

  /** A listing passes validation exactly when it conforms to the schema. */
  lemma ErrorsEmptyIffConforms(l: Listing)
    ensures Errors(l) == [] <==> Conforms(l)
  {
    assert "" !in Categories;
  }

  /** `new Listing({...})`: trims title, description and location, and fills
      in the defaults for isNegotiable (false), condition ("Used - Good") and
      images ([]). */
  function NewListing(
    title: string, description: string, price: Num, isNegotiable: Option<bool>,
    category: string, condition: Option<string>, location: string,
    images: Option<seq<string>>, seller: Id, createdAt: nat): (l: Listing)
    ensures l.title == Trim(title) && l.description == Trim(description) && l.location == Trim(location)
    ensures l.isNegotiable == (isNegotiable == Some(true))
    ensures l.condition == (if condition.Some? then condition.value else DefaultCondition)
    ensures l.images == (if images.Some? then images.value else [])
    ensures l.seller == seller && l.price == price && l.category == category && l.createdAt == createdAt
  {
    Listing(
      Trim(title), Trim(description), price,
      if isNegotiable.Some? then isNegotiable.value else false,
      category,
      if condition.Some? then condition.value else DefaultCondition,
      Trim(location),
      if images.Some? then images.value else [],
      seller, createdAt)
  }

  /** The default condition is one the schema accepts. */
  lemma DefaultConditionAllowed()
    ensures ConditionErrors(DefaultCondition) == []
  {
    assert DefaultCondition == Conditions[2];
  }

  /** The update document `updateListing` passes to `findByIdAndUpdate`.
      Fields the request left out are None and are left as they are. */
  datatype ListingUpdate = ListingUpdate(
    title: Option<string>,
    location: Option<string>,
    category: Option<string>,
    description: Option<string>,
    images: seq<string>,
    price: Num,
    isNegotiable: bool,
    condition: Option<string>)

  /** Update validators: only the paths the update sets are checked, after
      the trim setters ran on them, in the order the update object lists
      them. A NaN price is among them here, though Mongoose refuses it
      earlier, while casting the update (see `UpdateFailure`). */
  function UpdateErrors(u: ListingUpdate): (r: seq<SchemaError>)
    ensures |r| <= 6 && OnePerPath(r)
    ensures PathsIn(r, UpdatedPaths(u))
  {
    var title := if u.title.Some? then BoundedTextErrors("title", Trim(u.title.value), TitleMaxLength) else [];
    var location := if u.location.Some? then LocationErrors(Trim(u.location.value)) else [];
    var category := if u.category.Some? then CategoryErrors(u.category.value) else [];
    var description :=
      if u.description.Some? then BoundedTextErrors("description", Trim(u.description.value), DescriptionMaxLength) else [];
    var condition := if u.condition.Some? then ConditionErrors(u.condition.value) else [];
    UpdatePieces(u, title, location, category, description, condition);
    UpdateChain(title, location, category, description, PriceErrors(u.price), condition);
    UpdatePaths(u, title, location, category, description, PriceErrors(u.price), condition);
    title + location + category + description + PriceErrors(u.price) + condition
  }

  /** The paths an update writes: the price always, the optional fields when given. */
  function UpdatedPaths(u: ListingUpdate): set<string> {
    {"price"}
    + (if u.title.Some? then {"title"} else {})
    + (if u.location.Some? then {"location"} else {})
    + (if u.category.Some? then {"category"} else {})
    + (if u.description.Some? then {"description"} else {})
    + (if u.condition.Some? then {"condition"} else {})
  }

  lemma UpdatePieces(u: ListingUpdate, title: seq<SchemaError>, location: seq<SchemaError>, category: seq<SchemaError>,
                     description: seq<SchemaError>, condition: seq<SchemaError>)
    requires title == if u.title.Some? then BoundedTextErrors("title", Trim(u.title.value), TitleMaxLength) else []
    requires location == if u.location.Some? then LocationErrors(Trim(u.location.value)) else []
    requires category == if u.category.Some? then CategoryErrors(u.category.value) else []
    requires description ==
      if u.description.Some? then BoundedTextErrors("description", Trim(u.description.value), DescriptionMaxLength) else []
    requires condition == if u.condition.Some? then ConditionErrors(u.condition.value) else []
    ensures AtMostOneAt(title, "title") && (u.title.None? ==> title == [])
    ensures AtMostOneAt(location, "location") && (u.location.None? ==> location == [])
    ensures AtMostOneAt(category, "category") && (u.category.None? ==> category == [])
    ensures AtMostOneAt(description, "description") && (u.description.None? ==> description == [])
    ensures AtMostOneAt(PriceErrors(u.price), "price")
    ensures AtMostOneAt(condition, "condition") && (u.condition.None? ==> condition == [])
  {
  }

  lemma UpdateChain(title: seq<SchemaError>, location: seq<SchemaError>, category: seq<SchemaError>,
                    description: seq<SchemaError>, price: seq<SchemaError>, condition: seq<SchemaError>)
    requires AtMostOneAt(title, "title") && AtMostOneAt(location, "location") && AtMostOneAt(category, "category")
    requires AtMostOneAt(description, "description") && AtMostOneAt(price, "price") && AtMostOneAt(condition, "condition")
    ensures var r := title + location + category + description + price + condition;
            |r| <= 6 && OnePerPath(r)
  {
    var paths: set<string> := {"title"};
    AppendAt(title, location, paths, "location");
    AppendAt(title + location, category, paths + {"location"}, "category");
    var front := title + location + category;
    AppendAt(front, description, {"title", "location", "category"}, "description");
    AppendAt(front + description, price, {"title", "location", "category", "description"}, "price");
    AppendAt(front + description + price, condition, {"title", "location", "category", "description", "price"}, "condition");
  }

  lemma UpdatePaths(u: ListingUpdate, title: seq<SchemaError>, location: seq<SchemaError>, category: seq<SchemaError>,
                    description: seq<SchemaError>, price: seq<SchemaError>, condition: seq<SchemaError>)
    requires AtMostOneAt(title, "title") && (u.title.None? ==> title == [])
    requires AtMostOneAt(location, "location") && (u.location.None? ==> location == [])
    requires AtMostOneAt(category, "category") && (u.category.None? ==> category == [])
    requires AtMostOneAt(description, "description") && (u.description.None? ==> description == [])
    requires AtMostOneAt(price, "price")
    requires AtMostOneAt(condition, "condition") && (u.condition.None? ==> condition == [])
    ensures PathsIn(title + location + category + description + price + condition, UpdatedPaths(u))
  {
    var paths := UpdatedPaths(u);
    PathsInConcat(title, location, paths);
    PathsInConcat(title + location, category, paths);
    PathsInConcat(title + location + category, description, paths);
    PathsInConcat(title + location + category + description, price, paths);
    PathsInConcat(title + location + category + description + price, condition, paths);
  }

  lemma PathsInConcat(a: seq<SchemaError>, b: seq<SchemaError>, paths: set<string>)
    requires PathsIn(a, paths) && PathsIn(b, paths)
    ensures PathsIn(a + b, paths)
  {
    assert forall i :: |a| <= i < |a + b| ==> (a + b)[i] == b[i - |a|];
  }

  /** The CastError a NaN price raises while the update is cast, before
      any validator runs. */
  const UpdatePriceCastMessage: string :=
    "Cast to Number failed for value \"NaN\" (type number) at path \"price\" for model \"Listing\""

  /** The message of the error a refused update raises: the cast error for
      a NaN price, which alone is reported; otherwise the update
      validators' ValidationError, which has no document and so reads
      "Validation failed: " then "path: message" per failure. */
  function UpdateFailure(u: ListingUpdate): string {
    if u.price.NaN? then UpdatePriceCastMessage
    else "Validation failed: " + Join(PathMessages(UpdateErrors(u)), ", ")
  }

  function Pick(v: Option<string>, current: string): string {
    if v.Some? then v.value else current
  }

  /** The stored listing after the update: set fields replaced (trimmed where
      the schema trims), the others kept. */
  function ApplyUpdate(l: Listing, u: ListingUpdate): (r: Listing)
    ensures r.seller == l.seller && r.createdAt == l.createdAt
    ensures r.images == u.images && r.price == u.price && r.isNegotiable == u.isNegotiable
    ensures u.title.None? ==> r.title == l.title
    ensures u.title.Some? ==> r.title == Trim(u.title.value)
    ensures u.description.None? ==> r.description == l.description
    ensures u.description.Some? ==> r.description == Trim(u.description.value)
    ensures u.location.None? ==> r.location == l.location
    ensures u.location.Some? ==> r.location == Trim(u.location.value)
    ensures u.category.None? ==> r.category == l.category
    ensures u.category.Some? ==> r.category == u.category.value
    ensures u.condition.None? ==> r.condition == l.condition
    ensures u.condition.Some? ==> r.condition == u.condition.value
  {
    l.(title := if u.title.Some? then Trim(u.title.value) else l.title,
       description := if u.description.Some? then Trim(u.description.value) else l.description,
       location := if u.location.Some? then Trim(u.location.value) else l.location,
       category := Pick(u.category, l.category),
       condition := Pick(u.condition, l.condition),
       images := u.images,
       price := u.price,
       isNegotiable := u.isNegotiable)
  }

  /** An update that passes the update validators keeps a conforming listing
      conforming: the paths it does not set were valid already. */
  lemma UpdatePreservesConformance(l: Listing, u: ListingUpdate)
    requires Conforms(l) && UpdateErrors(u) == []
    ensures Conforms(ApplyUpdate(l, u))
  {
    UpdateErrorsEmptyParts(u);
    BoundedTextKept("title", u.title, l.title, TitleMaxLength);
    BoundedTextKept("description", u.description, l.description, DescriptionMaxLength);
  }

  /** An update with no errors has none on any path it sets. */
  lemma UpdateErrorsEmptyParts(u: ListingUpdate)
    requires UpdateErrors(u) == []
    ensures u.title.Some? ==> BoundedTextErrors("title", Trim(u.title.value), TitleMaxLength) == []
    ensures u.description.Some? ==>
              BoundedTextErrors("description", Trim(u.description.value), DescriptionMaxLength) == []
    ensures PriceAllowed(u.price)
    ensures u.category.Some? ==> u.category.value in Categories
    ensures u.condition.Some? ==> u.condition.value in Conditions
    ensures u.location.Some? ==> Trim(u.location.value) != ""
  {
    var t := if u.title.Some? then BoundedTextErrors("title", Trim(u.title.value), TitleMaxLength) else [];
    var d := if u.description.Some? then BoundedTextErrors("description", Trim(u.description.value), DescriptionMaxLength) else [];
    var p := PriceErrors(u.price);
    var c := if u.category.Some? then CategoryErrors(u.category.value) else [];
    var k := if u.condition.Some? then ConditionErrors(u.condition.value) else [];
    var o := if u.location.Some? then LocationErrors(Trim(u.location.value)) else [];
    assert |UpdateErrors(u)| == |t| + |d| + |p| + |c| + |k| + |o|;
  }

  /** A text path the update sets passes its check only with a valid value,
      and one it leaves out keeps its valid value. */
  lemma BoundedTextKept(path: string, v: Option<string>, current: string, maxLength: nat)
    requires current != "" && Utf16Length(current) <= maxLength
    requires v.Some? ==> BoundedTextErrors(path, Trim(v.value), maxLength) == []
    ensures var n := if v.Some? then Trim(v.value) else current;
            n != "" && Utf16Length(n) <= maxLength
  {
  }
}
