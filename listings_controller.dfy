/** The listing handlers (controllers/listingsController.js): the search
    query and sort built from the request, the rewriting of stored image paths
    into URLs, and the listing store with its create, update and delete
    operations, each with its guards and its image bookkeeping. */
module ListingsController {
  import opened Common
  import opened JsText
  import opened ListingSchema

  // ---------------------------------------------------------------------
  // getAllListings: the filter object and the sort object
  // ---------------------------------------------------------------------

  /** The query-string parameters `getAllListings` reads; None is absent. */
  datatype ListingParams = ListingParams(
    search: Option<string>,
    category: Option<string>,
    minPrice: Option<string>,
    maxPrice: Option<string>,
    sortBy: Option<string>)

  /** `{ <field>: { $regex: <regex>, $options: <options> } }` */
  datatype RegexClause = RegexClause(field: string, regex: string, options: string)

  /** The number `parseFloat(raw)` yields. Parsing is not modelled: the bound
      is stored as given, NaN included. */
  datatype ParsedFloat = ParseFloatOf(raw: string)

  /** `{ $gte: ..., $lte: ... }`, each key present or not. */
  datatype PriceRange = PriceRange(gte: Option<ParsedFloat>, lte: Option<ParsedFloat>)

  /** The filter object passed to `Listing.find`: its `$or`, `category` and
      `price` keys, each present or not. */
  datatype ListingQuery = ListingQuery(
    anyOf: Option<seq<RegexClause>>,
    category: Option<string>,
    price: Option<PriceRange>)

  const SearchFields: seq<string> := ["title", "description", "location"]

  /** Builds the filter and the sort object by successive assignment. The
      search term becomes three case-insensitive clauses on title,
      description and location; a non-empty category is an exact match; the
      price range exists when either bound is given and each bound comes
      from its own parameter; the sort object has exactly one key. */
  method BuildListingQuery(p: ListingParams) returns (query: ListingQuery, sort: map<string, int>)
    ensures query.anyOf.Some? <==> Truthy(p.search)
    ensures query.anyOf.Some? ==>
              |query.anyOf.value| == |SearchFields|
              && forall k :: 0 <= k < |SearchFields| ==>
                   query.anyOf.value[k] == RegexClause(SearchFields[k], p.search.value, "i")
    ensures query.category.Some? <==> Truthy(p.category)
    ensures query.category.Some? ==> query.category == p.category
    ensures query.price.Some? <==> Truthy(p.minPrice) || Truthy(p.maxPrice)
    ensures query.price.Some? ==>
              && (query.price.value.gte.Some? <==> Truthy(p.minPrice))
              && (query.price.value.lte.Some? <==> Truthy(p.maxPrice))
              && (Truthy(p.minPrice) ==> query.price.value.gte == Some(ParseFloatOf(p.minPrice.value)))
              && (Truthy(p.maxPrice) ==> query.price.value.lte == Some(ParseFloatOf(p.maxPrice.value)))
    ensures |sort| == 1
    ensures p.sortBy == Some("priceAsc") ==> sort == map["price" := 1]
    ensures p.sortBy == Some("priceDesc") ==> sort == map["price" := -1]
    ensures p.sortBy != Some("priceAsc") && p.sortBy != Some("priceDesc") ==> sort == map["createdAt" := -1]
  {
    query := ListingQuery(None, None, None);
    if Truthy(p.search) {
      var term := p.search.value;
      query := query.(anyOf := Some([
        RegexClause("title", term, "i"),
        RegexClause("description", term, "i"),
        RegexClause("location", term, "i")]));
    }
    if Truthy(p.category) && p.category.value != "" {
      query := query.(category := p.category);
    }
    if Truthy(p.minPrice) || Truthy(p.maxPrice) {
      var range := PriceRange(None, None);
      if Truthy(p.minPrice) {
        range := range.(gte := Some(ParseFloatOf(p.minPrice.value)));
      }
      if Truthy(p.maxPrice) {
        range := range.(lte := Some(ParseFloatOf(p.maxPrice.value)));
      }
      query := query.(price := Some(range));
    }
    sort := map[];
    if Truthy(p.sortBy) {
      if p.sortBy.value == "priceAsc" {
        sort := sort["price" := 1];
      } else if p.sortBy.value == "priceDesc" {
        sort := sort["price" := -1];
      } else {
        sort := sort["createdAt" := -1];
      }
    } else {
      sort := sort["createdAt" := -1];
    }
  }

  // ---------------------------------------------------------------------
  // Image paths and URLs
  // ---------------------------------------------------------------------

  /** `path.join("uploads", filename)`. The upload filenames carry no path
      separator and are never "." or "..", so the join is a concatenation. */
  function UploadPath(filename: string): string {
    "uploads/" + filename
  }

  function UploadPaths(filenames: seq<string>): (paths: seq<string>)
    ensures |paths| == |filenames|
    ensures forall i :: 0 <= i < |filenames| ==> paths[i] == UploadPath(filenames[i])
  {
    if filenames == [] then [] else [UploadPath(filenames[0])] + UploadPaths(filenames[1..])
  }

  /** `${protocol}://${host}/${path with every backslash turned into "/"}`. */
  function ImageUrl(protocol: string, host: string, path: string): (url: string)
    ensures var prefix := protocol + "://" + host + "/";
      && StartsWith(url, prefix)
      && |url| == |prefix| + |path|
      && '\\' !in url[|prefix|..]
      && (forall i :: 0 <= i < |path| && path[i] != '\\' ==> url[|prefix| + i] == path[i])
      && forall i :: 0 <= i < |path| && path[i] == '\\' ==> url[|prefix| + i] == '/'
  {
    var prefix := protocol + "://" + host + "/";
    var tail := ReplaceAll(path, '\\', '/');
    assert (prefix + tail)[|prefix|..] == tail;
    prefix + tail
  }

  /** The rewrite makes the URL independent of the host's path separator: an
      upload stored as `uploads\f` (Windows join) and as `uploads/f` (POSIX
      join) is served at the same `protocol://host/uploads/f`. */
  lemma UploadUrlIndependentOfSeparator(protocol: string, host: string, filename: string)
    requires '\\' !in filename
    ensures ImageUrl(protocol, host, "uploads\\" + filename) == ImageUrl(protocol, host, UploadPath(filename))
    ensures ImageUrl(protocol, host, UploadPath(filename)) == protocol + "://" + host + "/uploads/" + filename
  {
  }

  /** One URL per stored path, in the same order. */
  function FormatImages(protocol: string, host: string, images: seq<string>): (urls: seq<string>)
    ensures |urls| == |images|
    ensures forall i :: 0 <= i < |images| ==> urls[i] == ImageUrl(protocol, host, images[i])
  {
    if images == [] then [] else [ImageUrl(protocol, host, images[0])] + FormatImages(protocol, host, images[1..])
  }

  /** The listing as sent: the same record with its image paths turned into URLs. */
  function FormatListing(l: Listing, protocol: string, host: string): (r: Listing)
    ensures r.(images := l.images) == l
    ensures r.images == FormatImages(protocol, host, l.images)
  {
    l.(images := FormatImages(protocol, host, l.images))
  }

  // ---------------------------------------------------------------------
  // createListing
  // ---------------------------------------------------------------------

  /** The multipart body of a create or update request; None is undefined. */
  datatype ListingBody = ListingBody(
    title: Option<string>,
    location: Option<string>,
    category: Option<string>,
    description: Option<string>,
    price: Option<NumText>,
    isNegotiable: Option<string>,
    condition: Option<string>,
    existingImages: FormField)

  const MissingFieldsMessage: string :=
    "Missing required fields: title, location, category, description, and price are mandatory."

  /** The guard of `createListing`: four truthy strings and a price that is
      not undefined (an empty or zero price passes). */
  predicate HasRequiredFields(b: ListingBody) {
    Truthy(b.title) && Truthy(b.location) && Truthy(b.category) && Truthy(b.description) && b.price.Some?
  }

  /** What `createListing` decides before touching the store. */
  datatype CreateCheck = MissingFields | Invalid(errors: seq<SchemaError>) | Accepted(listing: Listing)

  /** The listing `new Listing({...})` builds from a guarded body. */
  function DraftListing(b: ListingBody, files: seq<string>, seller: Id, now: nat): Listing
    requires HasRequiredFields(b)
  {
    NewListing(b.title.value, b.description.value, b.price.value.asNumber,
               Some(b.isNegotiable == Some("true")), b.category.value, b.condition,
               b.location.value, Some(UploadPaths(files)), seller, now)
  }

  function CheckCreate(b: ListingBody, files: seq<string>, seller: Id, now: nat): (r: CreateCheck)
    ensures r.MissingFields? <==> !HasRequiredFields(b)
    ensures r.Invalid? ==> r.errors != [] && r.errors == Errors(DraftListing(b, files, seller, now))
    ensures r.Invalid? && b.price.value.asNumber.NaN? ==>
              r.errors[0] == CastFailed("price") && forall i :: 1 <= i < |r.errors| ==> r.errors[i].path != "price"
    ensures r.Accepted? ==>
              && Conforms(r.listing)
              && r.listing.seller == seller
              && r.listing.images == UploadPaths(files)
              && r.listing.price == b.price.value.asNumber
              && r.listing.isNegotiable == (b.isNegotiable == Some("true"))
              && r.listing.title == Trim(b.title.value)
              && r.listing.description == Trim(b.description.value)
              && r.listing.location == Trim(b.location.value)
              && r.listing.category == b.category.value
              && r.listing.condition == (if b.condition.Some? then b.condition.value else DefaultCondition)
              && r.listing.createdAt == now
    ensures r.Accepted? ==> r.listing == DraftListing(b, files, seller, now)
    ensures HasRequiredFields(b) ==> (r.Accepted? <==> Conforms(DraftListing(b, files, seller, now)))
  {
    if !HasRequiredFields(b) then MissingFields
    else
      var l := DraftListing(b, files, seller, now);
      ErrorsEmptyIffConforms(l);
      CastErrorFirst(l);
      if Errors(l) == [] then Accepted(l) else Invalid(Errors(l))
  }

  /** The texts of a guarded body are clean: already trimmed and within
      their length limits, with a category and condition the schema allows. */
  predicate CleanFields(b: ListingBody)
    requires HasRequiredFields(b)
  {
    && Trim(b.title.value) == b.title.value && Utf16Length(b.title.value) <= TitleMaxLength
    && Trim(b.description.value) == b.description.value
    && Utf16Length(b.description.value) <= DescriptionMaxLength
    && Trim(b.location.value) == b.location.value
    && b.category.value in Categories
    && (if b.condition.Some? then b.condition.value else DefaultCondition) in Conditions
  }

  /** With clean fields, the price alone decides: zero and any other
      non-negative number is accepted, a negative one or NaN is refused. */
  lemma {:induction false} PriceDecidesCleanCreate(b: ListingBody, files: seq<string>, seller: Id, now: nat)
    requires HasRequiredFields(b) && CleanFields(b)
    ensures CheckCreate(b, files, seller, now).Accepted? <==> PriceAllowed(b.price.value.asNumber)
    ensures b.price.value.asNumber == Finite(0.0) ==> CheckCreate(b, files, seller, now).Accepted?
  {
    CleanDraftConforms(b, files, seller, now);
  }

  lemma CleanDraftConforms(b: ListingBody, files: seq<string>, seller: Id, now: nat)
    requires HasRequiredFields(b) && CleanFields(b)
    ensures Conforms(DraftListing(b, files, seller, now)) <==> PriceAllowed(b.price.value.asNumber)
  {
    var l := DraftListing(b, files, seller, now);
    assert l.title == b.title.value && l.description == b.description.value && l.location == b.location.value;
  }

  // ---------------------------------------------------------------------
  // updateListing: reconciling the image list
  // ---------------------------------------------------------------------

  /** `imagesToKeep`: an array is taken as it is, a single truthy value is
      wrapped, anything else ("" or absent) is the empty list. */
  function KeptImages(existing: FormField): (keep: seq<string>)
    ensures existing.Many? ==> keep == existing.texts
    ensures existing.One? && existing.text != "" ==> keep == [existing.text]
    ensures existing.Absent? || existing == One("") ==> keep == []
  {
    match existing
    case Many(texts) => texts
    case One(text) => if text != "" then [text] else []
    case Absent => []
  }

  /** `oldImagesToDelete`: the stored images not in the keep list, in stored order. */
  function RemovedImages(stored: seq<string>, keep: seq<string>): (gone: seq<string>)
    ensures |gone| <= |stored|
    ensures forall x :: x in gone <==> x in stored && x !in keep
  {
    if stored == [] then []
    else (if stored[0] in keep then [] else [stored[0]]) + RemovedImages(stored[1..], keep)
  }

  /** The stored images that the keep list names, in stored order. */
  function RetainedImages(stored: seq<string>, keep: seq<string>): (kept: seq<string>)
    ensures forall x :: x in kept <==> x in stored && x in keep
  {
    if stored == [] then []
    else (if stored[0] in keep then [stored[0]] else []) + RetainedImages(stored[1..], keep)
  }

  /** No stored image is lost or duplicated: counted with multiplicity,
      the retained and the removed images together are the stored list.
      (That none is in both follows from the two functions' contracts.) */
  lemma {:induction false} RetainedAndRemovedPartitionStored(stored: seq<string>, keep: seq<string>)
    ensures multiset(RetainedImages(stored, keep)) + multiset(RemovedImages(stored, keep)) == multiset(stored)
  {
    if stored != [] {
      var rest := stored[1..];
      var first := [stored[0]];
      RetainedAndRemovedPartitionStored(rest, keep);
      assert stored == first + rest;
      var r, m := RetainedImages(rest, keep), RemovedImages(rest, keep);
      if stored[0] in keep {
        assert RetainedImages(stored, keep) == first + r;
        assert RemovedImages(stored, keep) == m;
        assert multiset(first + r) == multiset(first) + multiset(r);
      } else {
        assert RetainedImages(stored, keep) == r;
        assert RemovedImages(stored, keep) == first + m;
        assert multiset(first + m) == multiset(first) + multiset(m);
      }
      assert multiset(stored) == multiset(first) + multiset(rest);
    }
  }

  /** `filter` keeps the stored order: the removed images of two runs of
      stored images are those of the first run, then those of the second. */
  lemma {:induction false} RemovedImagesKeepsOrder(s1: seq<string>, s2: seq<string>, keep: seq<string>)
    ensures RemovedImages(s1 + s2, keep) == RemovedImages(s1, keep) + RemovedImages(s2, keep)
  {
    if s1 == [] {
      assert s1 + s2 == s2;
    } else {
      var head := if s1[0] in keep then [] else [s1[0]];
      var rest, removedRest, removed2 := s1[1..], RemovedImages(s1[1..], keep), RemovedImages(s2, keep);
      RemovedImagesKeepsOrder(rest, s2, keep);
      SplitHead(s1, s2);
      RemovedImagesStep(s1 + s2, keep);
      RemovedImagesStep(s1, keep);
      ImageListsReassociate(head, removedRest, removed2);
    }
  }

  lemma RemovedImagesStep(s: seq<string>, keep: seq<string>)
    requires s != []
    ensures RemovedImages(s, keep) == (if s[0] in keep then [] else [s[0]]) + RemovedImages(s[1..], keep)
  {
  }

  lemma SplitHead(s1: seq<string>, s2: seq<string>)
    requires s1 != []
    ensures (s1 + s2)[0] == s1[0] && (s1 + s2)[1..] == s1[1..] + s2
  {
  }

  lemma ImageListsReassociate(x: seq<string>, y: seq<string>, z: seq<string>)
    ensures x + (y + z) == x + y + z
  {
  }

  /** `Number(price)`; an absent price is `Number(undefined)`, which is NaN. */
  function PriceNumber(price: Option<NumText>): Num {
    if price.Some? then price.value.asNumber else NaN
  }

  /** The update document: the body's fields, the reconciled image list, the
      converted price and the negotiable flag. */
  function UpdateFieldsOf(b: ListingBody, images: seq<string>): (u: ListingUpdate)
    ensures u.images == images && u.isNegotiable == (b.isNegotiable == Some("true"))
    ensures u.price == PriceNumber(b.price)
    ensures u.title == b.title && u.location == b.location && u.category == b.category
    ensures u.description == b.description && u.condition == b.condition
  {
    ListingUpdate(b.title, b.location, b.category, b.description, images,
                  PriceNumber(b.price), b.isNegotiable == Some("true"), b.condition)
  }

  /** An update request without a price always fails validation: the price
      it sets is NaN. */
  lemma UpdateWithoutPriceRejected(b: ListingBody, images: seq<string>)
    requires b.price.None?
    ensures UpdateErrors(UpdateFieldsOf(b, images)) != []
  {
    var u := UpdateFieldsOf(b, images);
    var t := if u.title.Some? then BoundedTextErrors("title", Trim(u.title.value), TitleMaxLength) else [];
    var d := if u.description.Some? then BoundedTextErrors("description", Trim(u.description.value), DescriptionMaxLength) else [];
    var p := PriceErrors(u.price);
    var c := if u.category.Some? then CategoryErrors(u.category.value) else [];
    var k := if u.condition.Some? then ConditionErrors(u.condition.value) else [];
    var o := if u.location.Some? then LocationErrors(Trim(u.location.value)) else [];
    assert |p| == 1;
    assert |UpdateErrors(u)| == |t| + |d| + |p| + |c| + |k| + |o|;
  }

  /** The keep list is not checked against the stored images: a request can
      keep a path the listing never had. */
  lemma KeepListUnchecked()
    ensures var keep := KeptImages(One("uploads/other.jpg"));
            RemovedImages([], keep) == [] && "uploads/other.jpg" in keep + UploadPaths([])
  {
  }

  // ---------------------------------------------------------------------
  // The listing store
  // ---------------------------------------------------------------------

  /** The JSON bodies the listing handlers send on success. */
  datatype Body = ListingJson(listing: Listing) | Updated(message: string, listing: Listing) | Removed(message: string)

  const NotFoundMessage: string := "Listing not found"
  const NotOwnerUpdateMessage: string := "Not authorized to update this listing. You are not the owner."
  const NotOwnerDeleteMessage: string := "Not authorized to delete this listing. You are not the owner."
  const UpdatedMessage: string := "Listing updated successfully"
  const DeletedMessage: string := "Listing deleted successfully"

  /** The listing collection, and the image files handed to `fs.unlink`
      (fire-and-forget: the request never waits for or sees the outcome). */
  class ListingStore {
    var listings: map<Id, Listing>
    var nextId: Id
    var unlinked: seq<string>

    ghost predicate Valid()
      reads this
    {
      forall id :: id in listings ==> id < nextId
    }

    constructor ()
      ensures Valid() && listings == map[] && unlinked == []
    {
      listings := map[];
      nextId := 0;
      unlinked := [];
    }

    /** `getSingleListing`: 404 for an unknown id, otherwise the listing with URLs. */
    function GetSingle(id: Id, protocol: string, host: string): (r: Response<Body>)
      reads this
      ensures r.Ok? <==> id in listings
      ensures r.Ok? ==> r == Ok(200, ListingJson(FormatListing(listings[id], protocol, host)))
      ensures !r.Ok? ==> r == Thrown(Some(404), NotFoundMessage)
    {
      if id in listings then Ok(200, ListingJson(FormatListing(listings[id], protocol, host)))
      else Thrown(Some(404), NotFoundMessage)
    }

    /** `getMyListings`: the caller's listings, with URLs. */
    function MyListings(user: Id, protocol: string, host: string): (r: map<Id, Listing>)
      reads this
      ensures forall id :: id in r <==> id in listings && listings[id].seller == user
      ensures forall id :: id in r ==> r[id] == FormatListing(listings[id], protocol, host)
    {
      map id | id in listings && listings[id].seller == user :: FormatListing(listings[id], protocol, host)
    }

    /** `createListing` for the authenticated `user`: 400 on a missing field,
      a validation error when the schema refuses, else a new listing owned by
      the caller and a 201 with it. */
    method Create(b: ListingBody, files: seq<string>, user: Id, protocol: string, host: string, now: nat)
      returns (r: Response<Body>)
      requires Valid()
      modifies this
      ensures Valid() && unlinked == old(unlinked)
      ensures match CheckCreate(b, files, user, now)
        case MissingFields =>
          r == Thrown(Some(400), MissingFieldsMessage) && listings == old(listings) && nextId == old(nextId)
        case Invalid(errors) =>
          r == Thrown(None, ValidationFailure(errors)) && listings == old(listings) && nextId == old(nextId)
        case Accepted(l) =>
          && old(nextId) !in old(listings)
          && listings == old(listings)[old(nextId) := l] && nextId == old(nextId) + 1
          && l.seller == user
          && r == Ok(201, ListingJson(FormatListing(l, protocol, host)))
    {
      var check := CheckCreate(b, files, user, now);
      r := Commit(check, protocol, host);
    }

    /** The answer to a decided creation, and the insert when it was accepted. */
    method Commit(check: CreateCheck, protocol: string, host: string) returns (r: Response<Body>)
      requires Valid()
      modifies this
      ensures Valid() && unlinked == old(unlinked)
      ensures match check
        case MissingFields =>
          r == Thrown(Some(400), MissingFieldsMessage) && listings == old(listings) && nextId == old(nextId)
        case Invalid(errors) =>
          r == Thrown(None, ValidationFailure(errors)) && listings == old(listings) && nextId == old(nextId)
        case Accepted(l) =>
          && old(nextId) !in old(listings)
          && listings == old(listings)[old(nextId) := l] && nextId == old(nextId) + 1
          && r == Ok(201, ListingJson(FormatListing(l, protocol, host)))
    {
      match check
      case MissingFields =>
        r := Thrown(Some(400), MissingFieldsMessage);
      case Invalid(errors) =>
        r := Thrown(None, ValidationFailure(errors));
      case Accepted(l) =>
        listings := listings[nextId := l];
        nextId := nextId + 1;
        r := Ok(201, ListingJson(FormatListing(l, protocol, host)));
    }

    /** Hands each path to `fs.unlink`, in order. */
    method UnlinkAll(paths: seq<string>)
      modifies this
      ensures unlinked == old(unlinked) + paths
      ensures listings == old(listings) && nextId == old(nextId)
    {
      var i := 0;
      while i < |paths|
        invariant 0 <= i <= |paths|
        invariant unlinked == old(unlinked) + paths[..i]
        invariant listings == old(listings) && nextId == old(nextId)
      {
        unlinked := unlinked + [paths[i]];
        i := i + 1;
      }
      assert paths[..i] == paths;
    }

    /** `updateListing`: 404 before 403; an owner's request unlinks the
      stored images it does not keep, then the update runs its validators.
      The final image list is the keep list followed by the uploads. The
      unlinking happens even when the update is then refused. */
    method Update(id: Id, b: ListingBody, files: seq<string>, user: Id, protocol: string, host: string)
      returns (r: Response<Body>)
      requires Valid()
      modifies this
      ensures Valid() && nextId == old(nextId)
      ensures id !in old(listings) ==>
                r == Thrown(Some(404), NotFoundMessage)
                && listings == old(listings) && unlinked == old(unlinked)
      ensures id in old(listings) && old(listings)[id].seller != user ==>
                r == Thrown(Some(403), NotOwnerUpdateMessage)
                && listings == old(listings) && unlinked == old(unlinked)
      ensures id in old(listings) && old(listings)[id].seller == user ==>
                var keep := KeptImages(b.existingImages);
                var u := UpdateFieldsOf(b, keep + UploadPaths(files));
                && unlinked == old(unlinked) + RemovedImages(old(listings)[id].images, keep)
                && (UpdateErrors(u) != [] ==>
                      r == Thrown(None, UpdateFailure(u)) && listings == old(listings))
                && (UpdateErrors(u) == [] ==>
                      var l := ApplyUpdate(old(listings)[id], u);
                      listings == old(listings)[id := l]
                      && r == Ok(200, Updated(UpdatedMessage, FormatListing(l, protocol, host))))
    {
      if id !in listings {
        r := Thrown(Some(404), NotFoundMessage);
        return;
      }
      var listing := listings[id];
      if listing.seller != user {
        r := Thrown(Some(403), NotOwnerUpdateMessage);
        return;
      }
      var keep := KeptImages(b.existingImages);
      var toDelete := RemovedImages(listing.images, keep);
      UnlinkAll(toDelete);
      var newPaths := UploadPaths(files);
      var updateFields := UpdateFieldsOf(b, keep + newPaths);
      var errors := UpdateErrors(updateFields);
      if errors != [] {
        r := Thrown(None, UpdateFailure(updateFields));
        return;
      }
      var updated := ApplyUpdate(listing, updateFields);
      listings := listings[id := updated];
      r := Ok(200, Updated(UpdatedMessage, FormatListing(updated, protocol, host)));
    }

    /** `deleteListing`: 404 before 403; the owner's listing loses every
      image file and then the record. */
    method Delete(id: Id, user: Id) returns (r: Response<Body>)
      requires Valid()
      modifies this
      ensures Valid() && nextId == old(nextId)
      ensures id !in old(listings) ==>
                r == Thrown(Some(404), NotFoundMessage)
                && listings == old(listings) && unlinked == old(unlinked)
      ensures id in old(listings) && old(listings)[id].seller != user ==>
                r == Thrown(Some(403), NotOwnerDeleteMessage)
                && listings == old(listings) && unlinked == old(unlinked)
      ensures id in old(listings) && old(listings)[id].seller == user ==>
                && unlinked == old(unlinked) + old(listings)[id].images
                && listings == old(listings) - {id}
                && r == Ok(200, Removed(DeletedMessage))
    {
      if id !in listings {
        r := Thrown(Some(404), NotFoundMessage);
        return;
      }
      var listing := listings[id];
      if listing.seller != user {
        r := Thrown(Some(403), NotOwnerDeleteMessage);
        return;
      }
      if |listing.images| > 0 {
        UnlinkAll(listing.images);
      }
      listings := listings - {id};
      r := Ok(200, Removed(DeletedMessage));
    }
  }

  /** The response for a list of listings (`getAllListings`): each with URLs, in order. */
  function FormatListings(items: seq<Listing>, protocol: string, host: string): (r: seq<Listing>)
    ensures |r| == |items|
    ensures forall i :: 0 <= i < |items| ==> r[i] == FormatListing(items[i], protocol, host)
  {
    if items == [] then [] else [FormatListing(items[0], protocol, host)] + FormatListings(items[1..], protocol, host)
  }
}
