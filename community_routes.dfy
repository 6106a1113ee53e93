/** The discussion routes (routes/communityRoutes.js): the route table with
    its authentication and upload steps, the name an uploaded image is
    stored under, and the image filter, which also admits webp. */
module CommunityRoutes {
  import opened Common
  import opened JsText
  import opened NodePath
  import opened Uploads
  import opened Routing
  import ListingsRoutes

  datatype Handler = CreatePost | GetAllPosts | GetPostById | UpdatePost | DeletePost | GetStats

  const ImageField: string := "image"
  const ImageUpload: UploadStep := Files(ImageField, 1)

  /** The routes in registration order. */
  const Table: seq<Route<Handler>> := [
    Route(POST, [Lit("discussions")], true, ImageUpload, CreatePost),
    Route(GET, [Lit("discussions")], false, NoUpload, GetAllPosts),
    Route(GET, [Lit("discussions"), Param("id")], false, NoUpload, GetPostById),
    Route(PUT, [Lit("discussions"), Param("id")], true, ImageUpload, UpdatePost),
    Route(DELETE, [Lit("discussions"), Param("id")], true, NoUpload, DeletePost),
    Route(GET, [Lit("stats")], false, NoUpload, GetStats)
  ]

  const FileTypes: seq<string> := ["jpeg", "jpg", "png", "gif", "webp"]
  const FilterMessage: string := "Only image files are allowed."

  /** The `fileFilter` callback: `/jpeg|jpg|png|gif|webp/` finds a match in
      both the mimetype and the lower-cased extension. */
  predicate AcceptsFile(f: Upload)
    ensures AcceptsFile(f) ==> ExtName(f.originalname) != "" && f.mimetype != ""
  {
    ImageAllowedNeedsText(f, FileTypes);
    ImageAllowed(f, FileTypes)
  }

  /** `upload.single('image')`: at most one named file, under "image". */
  function AdmitImage(files: seq<Upload>): (r: Admission)
    ensures var named := Named(files);
            r.Admitted? <==>
              |named| <= 1
              && forall i :: 0 <= i < |named| ==>
                   named[i].fieldname == ImageField && AcceptsFile(named[i]) && named[i].size <= MaxFileSize
    ensures r.Admitted? ==> r.files == Named(files)
  {
    Admit(files, ImageField, 1, AcceptsFile, FilterMessage, MaxFileSize)
  }

  /** The `filename` callback: the form field's name, "-", the time in
      milliseconds, and the original extension. */
  function StoredFilename(fieldname: string, originalname: string, now: nat): string {
    fieldname + "-" + NatToDecimal(now) + ExtName(originalname)
  }

  /** The stored name starts with the field name and "-" ("image-" for
      this route), ends with the original extension, and has no "/" when
      the field name has none. */
  lemma StoredFilenameShape(fieldname: string, originalname: string, now: nat)
    requires '/' !in fieldname
    ensures var name := StoredFilename(fieldname, originalname, now);
            var ext := ExtName(originalname);
            && name[..|fieldname| + 1] == fieldname + "-"
            && |ext| <= |name| && name[|name| - |ext|..] == ext
            && '/' !in name
  {
    ListingsRoutes.DecimalHasNoSlash(now);
    ListingsRoutes.AssembleName(fieldname, NatToDecimal(now), ExtName(originalname));
  }

  /** Every file the listing filter accepts, this one accepts too. */
  lemma AcceptsListingImages(f: Upload)
    requires ListingsRoutes.AcceptsFile(f)
    ensures AcceptsFile(f)
  {
    ListingTypesIncluded();
    WiderFilterAccepts(f, ListingsRoutes.FileTypes, FileTypes);
  }

  lemma ListingTypesIncluded()
    ensures forall k :: 0 <= k < |ListingsRoutes.FileTypes| ==> ListingsRoutes.FileTypes[k] in FileTypes
  {
    assert forall k :: 0 <= k < |ListingsRoutes.FileTypes| ==> ListingsRoutes.FileTypes[k] == FileTypes[k];
  }

  /** Unlike the listing filter, this one accepts webp images. */
  lemma WebpAccepted(f: Upload)
    requires ExtName(f.originalname) == ".webp" && f.mimetype == "image/webp"
    ensures AcceptsFile(f)
    ensures !ListingsRoutes.AcceptsFile(f)
  {
    ListingsRoutes.LowerWebp();
    ListingsRoutes.WebpRefused(f);
    WebpMatches();
  }

  lemma WebpMatches()
    ensures ContainsAny(".webp", FileTypes) && ContainsAny("image/webp", FileTypes)
  {
    assert OccursAt(".webp", "webp", 1);
    assert OccursAt("image/webp", "webp", 6);
    assert FileTypes[4] == "webp";
  }

  /** Creating, editing and deleting posts run `protect`; reading posts and
      the statistics do not. Only create and update take an upload. */
  lemma ProtectedRoutes()
    ensures forall i :: 0 <= i < |Table| ==>
              (Table[i].protected <==> Table[i].verb != GET)
    ensures forall i :: 0 <= i < |Table| ==>
              (Table[i].upload == ImageUpload <==> Table[i].handler == CreatePost || Table[i].handler == UpdatePost)
  {
  }

  /** "/stats" reaches the statistics, and "/discussions/<id>" reaches the
      post with that id. */
  lemma StatsAndPostRoutes(id: string)
    requires id != ""
    ensures Resolve(Table, GET, ["stats"]) == Some(5)
    ensures Resolve(Table, GET, ["discussions", id]) == Some(2)
  {
    ToLowerAsciiOfLower("stats");
    StatsInAnyCase("stats");
    PostRoute(id);
  }

  lemma PostRoute(id: string)
    requires id != ""
    ensures Resolve(Table, GET, ["discussions", id]) == Some(2)
  {
    PostRouteFirstMatch(id);
    ResolvesTo(Table, GET, ["discussions", id], 2);
  }

  lemma PostRouteFirstMatch(id: string)
    requires id != ""
    ensures RouteMatches(Table[2], GET, ["discussions", id])
    ensures forall j :: 0 <= j < 2 ==> !RouteMatches(Table[j], GET, ["discussions", id])
  {
    var segments := ["discussions", id];
    assert PartMatches(Table[2].pattern[0], segments[0]);
    assert PartMatches(Table[2].pattern[1], segments[1]);
  }

  /** The router ignores case: any spelling of "stats" reaches the
      statistics. */
  lemma StatsInAnyCase(segment: string)
    requires ToLowerAscii(segment) == "stats"
    ensures Resolve(Table, GET, [segment]) == Some(5) && Table[5].handler == GetStats
  {
    ToLowerAsciiOfLower("stats");
    SameIgnoringCaseIffLowerEqual(segment, "stats");
    StatsFirstMatch(segment);
    ResolvesTo(Table, GET, [segment], 5);
  }

  lemma StatsFirstMatch(segment: string)
    requires SameIgnoringCase(segment, "stats")
    ensures RouteMatches(Table[5], GET, [segment])
    ensures forall j :: 0 <= j < 5 ==> !RouteMatches(Table[j], GET, [segment])
  {
    assert PartMatches(Table[5].pattern[0], [segment][0]);
    assert !PartMatches(Table[1].pattern[0], [segment][0]);
  }

  lemma UpperStatsReachesStats()
    ensures Resolve(Table, GET, ["STATS"]) == Some(5)
  {
    var lowered := ToLowerAscii("STATS");
    assert lowered[0] == 's' && lowered[1] == 't' && lowered[2] == 'a' && lowered[3] == 't' && lowered[4] == 's';
    assert lowered == "stats";
    StatsInAnyCase("STATS");
  }
}
