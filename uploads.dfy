/** The multer upload step the routes configure: which files of a
    multipart request are admitted, in the order multer checks them (a part
    without a filename is skipped; then field name and count, the route's
    type filter, and the size limit while the file is written), and the
    type filter both route files use. */
module Uploads {
  import opened Common
  import opened JsText
  import opened NodePath

  /** One file part of a multipart request. `size` is its length in bytes. */
  datatype Upload = Upload(fieldname: string, originalname: string, mimetype: string, size: nat)

  /** Why multer refused the request: a file under an unexpected field or
      beyond the count ("LIMIT_UNEXPECTED_FILE"), the filter's error, or a
      file over the size limit ("LIMIT_FILE_SIZE"). */
  datatype UploadError = UnexpectedFile(field: string) | FilterRejected(message: string) | FileTooLarge(field: string)

  datatype Admission = Admitted(files: seq<Upload>) | Refused(error: UploadError)

  /** `limits: { fileSize: 5 * 1024 * 1024 }`, in bytes. */
  const MaxFileSize: nat := 5 * 1024 * 1024

  /** `types.test(file.mimetype) && types.test(extname(originalname).toLowerCase())`
      for an alternation of plain words: some word occurs in the mimetype and
      some word occurs in the lower-cased extension. */
  predicate ImageAllowed(f: Upload, types: seq<string>) {
    ContainsAny(f.mimetype, types) && ContainsAny(ToLowerAscii(ExtName(f.originalname)), types)
  }

  /** A filter of non-empty words finds nothing in empty text, so it
      refuses a file without an extension or without a mimetype. */
  lemma ImageAllowedNeedsText(f: Upload, types: seq<string>)
    requires forall k :: 0 <= k < |types| ==> types[k] != ""
    ensures ImageAllowed(f, types) ==> ExtName(f.originalname) != "" && f.mimetype != ""
  {
    if ExtName(f.originalname) == "" {
      NoWordInEmpty(ToLowerAscii(ExtName(f.originalname)), types);
    }
    if f.mimetype == "" {
      NoWordInEmpty(f.mimetype, types);
    }
  }

  lemma NoWordInEmpty(s: string, types: seq<string>)
    requires |s| == 0 && forall k :: 0 <= k < |types| ==> types[k] != ""
    ensures !ContainsAny(s, types)
  {
    forall k | 0 <= k < |types|
      ensures !Contains(s, types[k])
    {
      assert |types[k]| > |s|;
    }
  }

  /** A file multer lets through for a route expecting `field`, with
      `filter` the route's `fileFilter` verdict. */
  predicate FileAdmissible(f: Upload, field: string, filter: Upload -> bool, maxSize: nat) {
    f.fieldname == field && filter(f) && f.size <= maxSize
  }

  /** The checks on one file, in multer's order: field name and remaining
      count, then the filter, then the size. None when all pass. */
  function CheckFile(f: Upload, field: string, remaining: nat, filter: Upload -> bool,
                     filterMessage: string, maxSize: nat): (r: Option<UploadError>)
    ensures r.None? <==> remaining > 0 && FileAdmissible(f, field, filter, maxSize)
    ensures r.Some? && r.value.FilterRejected? ==> r.value.message == filterMessage
  {
    if f.fieldname != field || remaining == 0 then Some(UnexpectedFile(f.fieldname))
    else if !filter(f) then Some(FilterRejected(filterMessage))
    else if f.size > maxSize then Some(FileTooLarge(f.fieldname))
    else None
  }

  /** The file parts multer handles: a part whose filename is empty (an
      empty file input) is skipped before any check and uses none of the
      count. The rest keep their arrival order. */
  function Named(files: seq<Upload>): (r: seq<Upload>)
    ensures |r| <= |files|
    ensures forall f :: f in r <==> f in files && f.originalname != ""
  {
    if files == [] then []
    else (if files[0].originalname == "" then [] else [files[0]]) + Named(files[1..])
  }

  /** `upload.array(field, maxCount)` (and `upload.single(field)` with a
      count of one): the named files in arrival order; the first one that
      fails a check decides the error. */
  function Admit(files: seq<Upload>, field: string, maxCount: nat, filter: Upload -> bool,
                 filterMessage: string, maxSize: nat): (r: Admission)
    ensures var named := Named(files);
            r.Admitted? <==>
              |named| <= maxCount && forall i :: 0 <= i < |named| ==> FileAdmissible(named[i], field, filter, maxSize)
    ensures r.Admitted? ==> r.files == Named(files)
    ensures r.Refused? && r.error.FilterRejected? ==> r.error.message == filterMessage
  {
    if files == [] then Admitted([])
    else if files[0].originalname == "" then
      assert Named(files) == Named(files[1..]);
      Admit(files[1..], field, maxCount, filter, filterMessage, maxSize)
    else
      match CheckFile(files[0], field, maxCount, filter, filterMessage, maxSize)
      case Some(e) =>
        assert Named(files)[0] == files[0];
        Refused(e)
      case None =>
        var named, tail := Named(files), Named(files[1..]);
        assert named == [files[0]] + tail;
        assert forall i :: 1 <= i < |named| ==> named[i] == tail[i - 1];
        match Admit(files[1..], field, maxCount - 1, filter, filterMessage, maxSize)
        case Admitted(rest) => Admitted([files[0]] + rest)
        case Refused(e) => Refused(e)
  }

  /** Parts with an empty filename change nothing: the upload step decides
      as it would on the named parts alone. */
  lemma {:induction false} UnnamedPartsIgnored(files: seq<Upload>, field: string, maxCount: nat,
                                               filter: Upload -> bool, filterMessage: string, maxSize: nat)
    ensures Admit(files, field, maxCount, filter, filterMessage, maxSize)
         == Admit(Named(files), field, maxCount, filter, filterMessage, maxSize)
    decreases |files|
  {
    if files == [] {
    } else if files[0].originalname == "" {
      UnnamedPartsIgnored(files[1..], field, maxCount, filter, filterMessage, maxSize);
      AdmitSkips(files, field, maxCount, filter, filterMessage, maxSize);
      assert Named(files) == Named(files[1..]);
    } else {
      var named := Named(files);
      NamedHead(files);
      if CheckFile(files[0], field, maxCount, filter, filterMessage, maxSize).Some? {
        AdmitHeadRefused(files, field, maxCount, filter, filterMessage, maxSize);
        AdmitHeadRefused(named, field, maxCount, filter, filterMessage, maxSize);
      } else {
        UnnamedPartsIgnored(files[1..], field, maxCount - 1, filter, filterMessage, maxSize);
        AdmitHeadPasses(files, field, maxCount, filter, filterMessage, maxSize);
        AdmitHeadPasses(named, field, maxCount, filter, filterMessage, maxSize);
      }
    }
  }

  lemma AdmitSkips(files: seq<Upload>, field: string, maxCount: nat,
                   filter: Upload -> bool, filterMessage: string, maxSize: nat)
    requires files != [] && files[0].originalname == ""
    ensures Admit(files, field, maxCount, filter, filterMessage, maxSize)
         == Admit(files[1..], field, maxCount, filter, filterMessage, maxSize)
  {
  }

  lemma AdmitHeadRefused(files: seq<Upload>, field: string, maxCount: nat,
                         filter: Upload -> bool, filterMessage: string, maxSize: nat)
    requires files != [] && files[0].originalname != ""
    requires CheckFile(files[0], field, maxCount, filter, filterMessage, maxSize).Some?
    ensures Admit(files, field, maxCount, filter, filterMessage, maxSize)
         == Refused(CheckFile(files[0], field, maxCount, filter, filterMessage, maxSize).value)
  {
  }

  lemma AdmitHeadPasses(files: seq<Upload>, field: string, maxCount: nat,
                        filter: Upload -> bool, filterMessage: string, maxSize: nat)
    requires files != [] && files[0].originalname != ""
    requires CheckFile(files[0], field, maxCount, filter, filterMessage, maxSize).None?
    ensures maxCount > 0
    ensures var rest := Admit(files[1..], field, maxCount - 1, filter, filterMessage, maxSize);
            Admit(files, field, maxCount, filter, filterMessage, maxSize)
              == if rest.Admitted? then Admitted([files[0]] + rest.files) else rest
  {
  }

  lemma NamedHead(files: seq<Upload>)
    requires files != [] && files[0].originalname != ""
    ensures var named := Named(files);
            named != [] && named[0] == files[0] && named[1..] == Named(files[1..])
  {
    assert Named(files) == [files[0]] + Named(files[1..]);
  }

  /** A file under the expected field passes a filter whose words include
      the words of a stricter filter's, whenever it passes that one. */
  lemma WiderFilterAccepts(f: Upload, narrow: seq<string>, wide: seq<string>)
    requires forall k :: 0 <= k < |narrow| ==> narrow[k] in wide
    requires ImageAllowed(f, narrow)
    ensures ImageAllowed(f, wide)
  {
    var k :| 0 <= k < |narrow| && Contains(f.mimetype, narrow[k]);
    var j :| 0 <= j < |wide| && wide[j] == narrow[k];
    var k2 :| 0 <= k2 < |narrow| && Contains(ToLowerAscii(ExtName(f.originalname)), narrow[k2]);
    var j2 :| 0 <= j2 < |wide| && wide[j2] == narrow[k2];
  }
}
