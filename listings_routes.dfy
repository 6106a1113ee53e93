/** The listing routes (routes/listingsRoutes.js): the route table with
    its authentication and upload steps, the name an uploaded image is
    stored under, and the image filter with its limits. */
module ListingsRoutes {
  import opened Common
  import opened JsText
  import opened NodePath
  import opened Uploads
  import opened Routing

  datatype Handler =
    | GetAllListings | GetMyListings | GetSingleListing
    | CreateListing | UpdateListing | DeleteListing | SendMessage

  const ImageField: string := "images"
  const MaxImages: nat := 5
  const ImageUpload: UploadStep := Files(ImageField, MaxImages)

  /** The routes in registration order; `/my` comes before `/:id`. */
  const Table: seq<Route<Handler>> := [
    Route(GET, [], false, NoUpload, GetAllListings),
    Route(GET, [Lit("my")], true, NoUpload, GetMyListings),
    Route(GET, [Param("id")], false, NoUpload, GetSingleListing),
    Route(POST, [], true, ImageUpload, CreateListing),
    Route(PUT, [Param("id")], true, ImageUpload, UpdateListing),
    Route(DELETE, [Param("id")], true, NoUpload, DeleteListing),
    Route(POST, [Param("listingId"), Lit("message")], true, NoUpload, SendMessage)
  ]

  const FileTypes: seq<string> := ["jpeg", "jpg", "png", "gif"]
  const FilterMessage: string := "Error: Images Only! (jpeg, jpg, png, gif)"

  /** The `fileFilter` callback: `/jpeg|jpg|png|gif/` finds a match in both
      the mimetype and the lower-cased extension. */
  predicate AcceptsFile(f: Upload)
    ensures AcceptsFile(f) ==> ExtName(f.originalname) != "" && f.mimetype != ""
  {
    ImageAllowedNeedsText(f, FileTypes);
    ImageAllowed(f, FileTypes)
  }

  /** The upload step of the create and update routes, on the parts that
      carry a filename. */
  function AdmitImages(files: seq<Upload>): (r: Admission)
    ensures var named := Named(files);
            r.Admitted? <==>
              |named| <= MaxImages
              && forall i :: 0 <= i < |named| ==>
                   named[i].fieldname == ImageField && AcceptsFile(named[i]) && named[i].size <= MaxFileSize
    ensures r.Admitted? ==> r.files == Named(files)
  {
    Admit(files, ImageField, MaxImages, AcceptsFile, FilterMessage, MaxFileSize)
  }

  /** An empty file input sends a part with no filename, whatever its field
      and type; it is skipped, so the update goes ahead with no new image. */
  lemma EmptyFileInputSkipped(fieldname: string, mimetype: string)
    ensures AdmitImages([Upload(fieldname, "", mimetype, 0)]) == Admitted([])
  {
    assert Named([Upload(fieldname, "", mimetype, 0)]) == [];
  }

  /** The base name with every whitespace run turned into "_". */
  function CleanStem(originalname: string): string {
    ReplaceWhitespaceRuns(Stem(originalname), "_")
  }

  /** The `filename` callback: cleaned base name, "-", the time in
      milliseconds, and the original extension. */
  function StoredFilename(originalname: string, now: nat): string {
    CleanStem(originalname) + "-" + NatToDecimal(now) + ExtName(originalname)
  }

  /** The stored name ends with the original extension, its base part has
      no whitespace and keeps every other character of the original base
      name in order, and it has no "/", so it stays one path component. */
  lemma StoredFilenameShape(originalname: string, now: nat)
    ensures var name := StoredFilename(originalname, now);
            var ext := ExtName(originalname);
            && |ext| <= |name| && name[|name| - |ext|..] == ext
            && name[..|CleanStem(originalname)|] == CleanStem(originalname)
            && NoWhitespace(CleanStem(originalname))
            && Erase(CleanStem(originalname), IsUnderscore) == Erase(Stem(originalname), IsWhitespaceOrUnderscore)
            && '/' !in name
  {
    CleanStemFacts(originalname);
    DecimalHasNoSlash(now);
    AssembleName(CleanStem(originalname), NatToDecimal(now), ExtName(originalname));
  }

  lemma CleanStemFacts(originalname: string)
    ensures NoWhitespace(CleanStem(originalname))
    ensures Erase(CleanStem(originalname), IsUnderscore) == Erase(Stem(originalname), IsWhitespaceOrUnderscore)
    ensures '/' !in CleanStem(originalname)
  {
    UnderscoreRunsFacts(Stem(originalname));
  }

  /** Whitespace runs replaced by "_": no whitespace is left, the other
      characters are kept in order, and no "/" appears. */
  lemma UnderscoreRunsFacts(stem: string)
    requires '/' !in stem
    ensures var c := ReplaceWhitespaceRuns(stem, "_");
            && NoWhitespace(c)
            && Erase(c, IsUnderscore) == Erase(stem, IsWhitespaceOrUnderscore)
            && '/' !in c
  {
    UnderscoreIsClean();
    ReplaceWhitespaceRunsClean(stem, "_");
    ReplaceWhitespaceRunsKeepsText(stem);
    ReplaceWhitespaceRunsAvoids(stem, "_", '/');
  }

  lemma UnderscoreIsClean()
    ensures NoWhitespace("_") && '/' !in "_"
  {
    assert "_"[0] == '_';
  }

  lemma DecimalHasNoSlash(n: nat)
    ensures '/' !in NatToDecimal(n)
  {
    var digits := NatToDecimal(n);
    assert forall i :: 0 <= i < |digits| ==> IsDigit(digits[i]);
  }

  lemma AssembleName(base: string, digits: string, ext: string)
    requires '/' !in base && '/' !in digits && '/' !in ext
    ensures var name := base + "-" + digits + ext;
            && name[|name| - |ext|..] == ext && name[..|base|] == base && name[..|base| + 1] == base + "-"
            && '/' !in name
  {
    var name := base + "-" + digits + ext;
    assert name == base + ("-" + digits + ext);
    assert forall i :: 0 <= i < |name| ==> name[i] in base || name[i] == '-' || name[i] in digits || name[i] in ext;
  }

  /** Routes that run `protect`: all but the two public reads. */
  lemma ProtectedRoutes()
    ensures forall i :: 0 <= i < |Table| ==>
              (Table[i].protected <==> Table[i].handler != GetAllListings && Table[i].handler != GetSingleListing)
    ensures forall i :: 0 <= i < |Table| ==>
              (Table[i].upload == ImageUpload <==> Table[i].handler == CreateListing || Table[i].handler == UpdateListing)
  {
  }

  /** "my" reaches the caller's listings and is never read as an id. */
  lemma MyIsNotAnId()
    ensures Resolve(Table, GET, ["my"]) == Some(1) && Table[1].handler == GetMyListings
  {
    LowerMy();
    MyInAnyCase("my");
  }

  /** The router ignores case, so "MY" or "My" also reaches the caller's
      listings, behind `protect`, rather than being read as an id. */
  lemma MyInAnyCase(segment: string)
    requires ToLowerAscii(segment) == "my"
    ensures Resolve(Table, GET, [segment]) == Some(1)
    ensures Table[1].handler == GetMyListings && Table[1].protected
  {
    LowerMy();
    SameIgnoringCaseIffLowerEqual(segment, "my");
    assert RouteMatches(Table[1], GET, [segment]);
    assert !RouteMatches(Table[0], GET, [segment]);
  }

  lemma UpperMyReachesMyListings()
    ensures Resolve(Table, GET, ["MY"]) == Some(1)
  {
    var lowered := ToLowerAscii("MY");
    assert lowered[0] == 'm' && lowered[1] == 'y';
    assert lowered == "my";
    MyInAnyCase("MY");
  }

  lemma LowerMy()
    ensures ToLowerAscii("my") == "my"
  {
    var lowered := ToLowerAscii("my");
    assert lowered[0] == 'm' && lowered[1] == 'y';
  }

  /** Every other single segment is read as a listing id. */
  lemma OtherSegmentIsAnId(segment: string)
    requires segment != "" && ToLowerAscii(segment) != "my"
    ensures Resolve(Table, GET, [segment]) == Some(2) && Table[2].handler == GetSingleListing
  {
    LowerMy();
    SameIgnoringCaseIffLowerEqual(segment, "my");
    assert RouteMatches(Table[2], GET, [segment]);
    assert !PartMatches(Table[1].pattern[0], segment);
    assert !RouteMatches(Table[1], GET, [segment]);
    assert !RouteMatches(Table[0], GET, [segment]);
  }

  /** An upper-case extension is lowered before the test, so a name such
      as "photo.JPG" sent as "image/jpeg" is accepted. */
  lemma UpperCaseExtensionAccepted(f: Upload)
    requires ExtName(f.originalname) == ".JPG" && f.mimetype == "image/jpeg"
    ensures AcceptsFile(f)
  {
    LowerJpg();
    JpgMatches();
    JpegMimeMatches();
  }

  lemma UpperCaseJpgExample(size: nat)
    ensures AcceptsFile(Upload(ImageField, "photo.JPG", "image/jpeg", size))
  {
    ExtNameOfUpperCaseJpg();
    UpperCaseExtensionAccepted(Upload(ImageField, "photo.JPG", "image/jpeg", size));
  }

  lemma JpgMatches()
    ensures ContainsAny(".jpg", FileTypes)
  {
    assert OccursAt(".jpg", "jpg", 1);
    assert FileTypes[1] == "jpg";
  }

  lemma JpegMimeMatches()
    ensures ContainsAny("image/jpeg", FileTypes)
  {
    assert OccursAt("image/jpeg", "jpeg", 6);
    assert FileTypes[0] == "jpeg";
  }

  lemma LowerJpg()
    ensures ToLowerAscii(".JPG") == ".jpg"
  {
    var lowered := ToLowerAscii(".JPG");
    assert lowered[0] == '.' && lowered[1] == 'j' && lowered[2] == 'p' && lowered[3] == 'g';
  }

  /** webp is not among the listing image types: a file whose extension
      is ".webp" is refused whatever its mimetype. */
  lemma WebpRefused(f: Upload)
    requires ExtName(f.originalname) == ".webp"
    ensures !AcceptsFile(f)
  {
    WebpMatchesNoType();
    LowerWebp();
  }

  lemma WebpMatchesNoType()
    ensures !ContainsAny(".webp", FileTypes)
  {
    NoOccurrence(".webp", "jpeg");
    NoOccurrence(".webp", "jpg");
    NoOccurrence(".webp", "png");
    NoOccurrence(".webp", "gif");
    assert FileTypes == ["jpeg", "jpg", "png", "gif"];
  }

  lemma LowerWebp()
    ensures ToLowerAscii(".webp") == ".webp"
  {
    var lowered := ToLowerAscii(".webp");
    assert lowered[0] == '.' && lowered[1] == 'w' && lowered[2] == 'e' && lowered[3] == 'b' && lowered[4] == 'p';
  }

  /** `t` cannot occur where its first character does not. */
  lemma NoOccurrence(s: string, t: string)
    requires t != [] && forall i :: 0 <= i && i + |t| <= |s| ==> s[i] != t[0]
    ensures !Contains(s, t)
  {
  }
}
