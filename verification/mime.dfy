/** The checks the node runs on an item's binary attachment before uploading it:
    presence, decoded size, the repair of a `text/plain` MIME type from the file
    extension, the supported-format test and the minimum data length. */
module Mime {
  import opened Wrappers
  import opened Text
  import opened Types
  import opened Defaults

  /** The attachment as the workflow hands it over. `mimeType` and `fileName` are
      "" when absent; `byteLength` is the decoded size `Buffer.byteLength(data, 'base64')`. */
  datatype BinaryData = BinaryData(data: string, mimeType: string, fileName: string, byteLength: nat)

  /** What the upload step receives once every check has passed. */
  datatype Upload = Upload(fileName: string, mimeType: string, data: string)

  const DefaultFileName: string := "document"
  const DefaultMimeType: string := "application/pdf"

  /** `binaryData.fileName || 'document'` */
  function FileNameOrDefault(b: BinaryData): (r: string)
    ensures r != ""
    ensures b.fileName != "" ==> r == b.fileName
    ensures b.fileName == "" ==> r == DefaultFileName
  {
    if b.fileName == "" then DefaultFileName else b.fileName
  }

  /** `fileName.toLowerCase().split('.').pop()` */
  function Extension(fileName: string): (r: string)
    ensures '.' !in r
  {
    LastPart(ToLower(fileName), '.')
  }

  /** The lower-cased text after the last dot is the extension. */
  lemma ExtensionAfterDot(stem: string, ext: string)
    requires '.' !in ext
    ensures Extension(stem + "." + ext) == ToLower(ext)
  {
    var lowered := ToLower(stem + "." + ext);
    assert lowered == ToLower(stem) + ['.'] + ToLower(ext);
    assert '.' !in ToLower(ext) by {
      forall i | 0 <= i < |ext| ensures ToLower(ext)[i] != '.' {
        assert ext[i] != '.';
      }
    }
    LastPartAfter(ToLower(stem), ToLower(ext), '.');
  }

  /** `application/<subtype>` */
  function ApplicationType(subtype: string): (r: string)
    ensures StartsWith(r, "application")
  {
    var r := "application/" + subtype;
    assert r[..11] == "application";
    r
  }

  /** `image/<subtype>` */
  function ImageType(subtype: string): (r: string)
    ensures StartsWith(r, "image")
  {
    var r := "image/" + subtype;
    assert r[..5] == "image";
    r
  }

  /** The own entries of `mimeTypeMappings`: the type a known extension stands for. */
  function MappedMimeType(ext: string): (r: Option<string>)
    ensures r.Some? <==> ext in MappedExtensions
    ensures r.Some? ==> StartsWith(r.value, "application") || StartsWith(r.value, "image")
  {
    if ext == "pdf" then Some(ApplicationType("pdf"))
    else if ext == "png" then Some(ImageType("png"))
    else if ext == "jpg" then Some(ImageType("jpeg"))
    else if ext == "jpeg" then Some(ImageType("jpeg"))
    else if ext == "gif" then Some(ImageType("gif"))
    else if ext == "webp" then Some(ImageType("webp"))
    else if ext == "tiff" then Some(ImageType("tiff"))
    else if ext == "tif" then Some(ImageType("tiff"))
    else if ext == "docx" then Some(ApplicationType("vnd.openxmlformats-officedocument.wordprocessingml.document"))
    else if ext == "pptx" then Some(ApplicationType("vnd.openxmlformats-officedocument.presentationml.presentation"))
    else if ext == "epub" then Some(ApplicationType("epub+zip"))
    else if ext == "rtf" then Some(ApplicationType("rtf"))
    else if ext == "odt" then Some(ApplicationType("vnd.oasis.opendocument.text"))
    else if ext == "tex" then Some(ApplicationType("x-latex"))
    else if ext == "ipynb" then Some(ApplicationType("x-ipynb+json"))
    else None
  }

  /** The extensions the table knows. */
  const MappedExtensions: seq<string> :=
    ["pdf", "png", "jpg", "jpeg", "gif", "webp", "tiff", "tif", "docx", "pptx", "epub", "rtf", "odt", "tex", "ipynb"]

  /** The MIME type sent with the upload, as the node corrects it (with the
      table lookup restricted to its own entries): a missing type becomes
      `application/pdf`, and `text/plain` is replaced by the type the file's
      extension maps to, if any. */
  function CorrectMimeType(declared: string, fileName: string): (r: string)
    ensures r != ""
    ensures declared == "" ==> r == DefaultMimeType
    ensures declared != "" && declared != "text/plain" ==> r == declared
    ensures declared == "text/plain" ==>
      r == (if MappedMimeType(Extension(fileName)).Some? then MappedMimeType(Extension(fileName)).value
            else "text/plain")
  {
    var mimeType := if declared == "" then DefaultMimeType else declared;
    if mimeType == "text/plain" && fileName != "" then
      match MappedMimeType(Extension(fileName))
      case Some(t) => t
      case None => mimeType
    else mimeType
  }

  /** The sixteen supported types of the format check, as `type/subtype` pairs. */
  const SupportedMimeTypeParts: seq<(string, string)> := [
    ("application", "pdf"),
    ("image", "png"),
    ("image", "jpeg"),
    ("image", "jpg"),
    ("image", "gif"),
    ("image", "webp"),
    ("image", "tiff"),
    ("application", "vnd.openxmlformats-officedocument.wordprocessingml.document"),
    ("application", "vnd.openxmlformats-officedocument.presentationml.presentation"),
    ("application", "epub+zip"),
    ("application", "rtf"),
    ("application", "vnd.oasis.opendocument.text"),
    ("application", "x-latex"),
    ("application", "x-ipynb+json"),
    ("text", "troff"),
    ("text", "x-dokuwiki")
  ]

  /** The `i`-th entry of `supportedMimeTypes`. */
  function SupportedMimeType(i: nat): string
    requires i < |SupportedMimeTypeParts|
  {
    SupportedMimeTypeParts[i].0 + "/" + SupportedMimeTypeParts[i].1
  }

  /** `supported.split('/')[0]` */
  function MajorType(supported: string): string {
    Split(supported, '/')[0]
  }

  /** `supportedMimeTypes.some(s => mimeType.startsWith(s.split('/')[0]) || mimeType === s)` */
  predicate Accepted(mimeType: string) {
    exists i :: 0 <= i < |SupportedMimeTypeParts| &&
      (StartsWith(mimeType, MajorType(SupportedMimeType(i))) || mimeType == SupportedMimeType(i))
  }

  const AcceptedPrefixes: seq<string> := ["application", "image", "text"]

  lemma SupportedMajors()
    ensures forall i :: 0 <= i < |SupportedMimeTypeParts| ==> SupportedMimeTypeParts[i].0 in AcceptedPrefixes
  {
  }

  lemma MajorOf(major: string, minor: string)
    requires '/' !in major
    ensures MajorType(major + "/" + minor) == major
    ensures StartsWith(major + "/" + minor, major)
  {
    assert major + "/" + minor == major + ['/'] + minor;
    SplitPrefix(major, minor, '/');
    assert (major + "/" + minor)[..|major|] == major;
  }

  /** The major type of each supported entry is the text before its slash. */
  lemma MajorTypeAt(i: nat)
    requires i < |SupportedMimeTypeParts|
    ensures MajorType(SupportedMimeType(i)) == SupportedMimeTypeParts[i].0
    ensures SupportedMimeTypeParts[i].0 in AcceptedPrefixes
    ensures StartsWith(SupportedMimeType(i), MajorType(SupportedMimeType(i)))
  {
    SupportedMajors();
    var major := SupportedMimeTypeParts[i].0;
    assert '/' !in major;
    MajorOf(major, SupportedMimeTypeParts[i].1);
  }

  /** The format check accepts exactly the types that begin with `application`,
      `image` or `text`: the exact-match half of the test adds nothing, and no
      slash is required after the prefix. */
  lemma AcceptedIffPrefix(mimeType: string)
    ensures Accepted(mimeType) <==>
      (StartsWith(mimeType, "application") || StartsWith(mimeType, "image") || StartsWith(mimeType, "text"))
  {
    if Accepted(mimeType) {
      AcceptedHasPrefix(mimeType);
    }
    if StartsWith(mimeType, "application") {
      PrefixAccepted(mimeType, 0);
    } else if StartsWith(mimeType, "image") {
      PrefixAccepted(mimeType, 1);
    } else if StartsWith(mimeType, "text") {
      PrefixAccepted(mimeType, 14);
    }
  }

  lemma AcceptedHasPrefix(mimeType: string)
    requires Accepted(mimeType)
    ensures exists k :: 0 <= k < |AcceptedPrefixes| && StartsWith(mimeType, AcceptedPrefixes[k])
  {
    var i :| 0 <= i < |SupportedMimeTypeParts| &&
      (StartsWith(mimeType, MajorType(SupportedMimeType(i))) || mimeType == SupportedMimeType(i));
    MajorTypeAt(i);
    var major := SupportedMimeTypeParts[i].0;
    var k :| 0 <= k < |AcceptedPrefixes| && AcceptedPrefixes[k] == major;
    assert StartsWith(mimeType, AcceptedPrefixes[k]);
  }

  lemma PrefixAccepted(mimeType: string, i: nat)
    requires i < |SupportedMimeTypeParts|
    requires StartsWith(mimeType, SupportedMimeTypeParts[i].0)
    ensures Accepted(mimeType)
  {
    MajorTypeAt(i);
  }

  /** Every type the extension table produces passes the format check. */
  lemma MappedTypesAccepted(ext: string)
    requires MappedMimeType(ext).Some?
    ensures Accepted(MappedMimeType(ext).value)
  {
    var t := MappedMimeType(ext).value;
    if StartsWith(t, "application") {
      PrefixAccepted(t, 0);
    } else {
      PrefixAccepted(t, 1);
    }
  }

  /** Correcting is idempotent: the corrected type is never `text/plain` unless
      the extension is unknown, and then it stays `text/plain`. */
  lemma CorrectMimeTypeIdempotent(declared: string, fileName: string)
    ensures CorrectMimeType(CorrectMimeType(declared, fileName), fileName) == CorrectMimeType(declared, fileName)
  {
  }

  /** The correction never turns an acceptable type into a rejected one, and
      whenever it changes `text/plain` the new type is accepted. */
  lemma CorrectionKeepsAccepted(declared: string, fileName: string)
    ensures declared != "" && Accepted(declared) ==> Accepted(CorrectMimeType(declared, fileName))
    ensures Accepted(CorrectMimeType(declared, fileName)) <==> declared == "" || Accepted(declared)
  {
    AcceptedIffPrefix(declared);
    AcceptedIffPrefix(DefaultMimeType);
    AcceptedIffPrefix("text/plain");
    var ext := Extension(fileName);
    if declared == "text/plain" && MappedMimeType(ext).Some? {
      MappedTypesAccepted(ext);
    }
  }

  /** The value `mimeTypeMappings[extension]` has in JavaScript, where the table is a
      plain object and the lookup also sees `Object.prototype`. */
  datatype LookedUp = MimeString(mimeType: string) | InheritedMember | Undefined

  /** Lower-case names of `Object.prototype` members; an extension is lower-cased
      first, so only these two can reach an inherited member. */
  const InheritedNames: seq<string> := ["constructor", "__proto__"]

  function LookupAsWritten(ext: string): (r: LookedUp)
    ensures r.MimeString? <==> MappedMimeType(ext).Some?
    ensures r.InheritedMember? <==> ext in InheritedNames
  {
    match MappedMimeType(ext)
    case Some(t) => MimeString(t)
    case None => if ext in InheritedNames then InheritedMember else Undefined
  }

  /** The message of the `TypeError` raised when `mimeType` holds a function or an
      object and the format check calls `mimeType.startsWith`. */
  const StartsWithTypeError: string := "mimeType.startsWith is not a function"

  /** The correction as written: an inherited member is truthy, so it is assigned to
      `mimeType`, and the next use of `mimeType` as a string throws. */
  function CorrectMimeTypeAsWritten(declared: string, fileName: string): (r: Result<string, string>)
    ensures r.Failure? <==>
      (declared == "text/plain" && LookupAsWritten(Extension(fileName)).InheritedMember?)
    ensures r.Failure? ==> r.error == StartsWithTypeError
  {
    var mimeType := if declared == "" then DefaultMimeType else declared;
    if mimeType == "text/plain" && fileName != "" then
      match LookupAsWritten(Extension(fileName))
      case MimeString(t) => Success(t)
      case InheritedMember => Failure(StartsWithTypeError)
      case Undefined => Success(mimeType)
    else Success(mimeType)
  }

  /** Outside the two inherited names the code as written and the corrected model agree. */
  lemma AsWrittenAgrees(declared: string, fileName: string)
    requires Extension(fileName) !in InheritedNames
    ensures CorrectMimeTypeAsWritten(declared, fileName) == Success(CorrectMimeType(declared, fileName))
  {
  }

  /** Any `text/plain` attachment whose extension names an inherited member throws
      as written, where the corrected model keeps `text/plain` and accepts it. */
  lemma InheritedExtensionThrows(fileName: string)
    requires Extension(fileName) in InheritedNames
    ensures CorrectMimeTypeAsWritten("text/plain", fileName) == Failure(StartsWithTypeError)
    ensures CorrectMimeType("text/plain", fileName) == "text/plain"
    ensures Accepted(CorrectMimeType("text/plain", fileName))
  {
    InheritedNotMapped(Extension(fileName));
    PrefixAccepted("text/plain", 14);
  }

  lemma InheritedNotMapped(ext: string)
    requires ext in InheritedNames
    ensures MappedMimeType(ext).None?
  {
  }

  /** A `text/plain` attachment named `scan.constructor` fails with a `TypeError`
      instead of passing the format check as `text/plain`. */
  lemma ConstructorExtensionThrows()
    ensures CorrectMimeTypeAsWritten("text/plain", "scan.constructor") == Failure(StartsWithTypeError)
    ensures Accepted(CorrectMimeType("text/plain", "scan.constructor"))
  {
    ConstructorExtension();
    InheritedExtensionThrows("scan.constructor");
  }

  lemma ConstructorExtension()
    ensures Extension("scan.constructor") == "constructor"
  {
    var e := "constructor";
    assert "scan.constructor" == "scan" + "." + e;
    assert '.' !in e;
    ExtensionAfterDot("scan", e);
    LowerConstructor(e);
  }

  lemma LowerConstructor(s: string)
    requires s == "constructor"
    ensures ToLower(s) == s
  {
    forall i | 0 <= i < |s| ensures LowerChar(s[i]) == s[i] {
      assert 'a' <= s[i] <= 'z';
    }
  }

  /** The rounded megabyte count `Math.round(bytes / 1024 / 1024)` of the size message. */
  function RoundedMegabytes(bytes: nat): (r: nat)
    ensures r * 1048576 <= bytes + 524288 < (r + 1) * 1048576
  {
    (bytes + 524288) / 1048576
  }

  const MinDataLength: nat := 10

  /** The checks before the upload, in the node's order: attachment present, decoded
      size within the limit, corrected type supported, data at least ten characters. */
  function ValidateBinary(binary: Option<BinaryData>, propertyName: string): (r: Result<Upload, ItemError>)
    ensures binary.None? <==> r == Failure(NoBinaryData(propertyName))
    ensures binary.Some? && binary.value.byteLength > MaxFileSize ==>
      r == Failure(FileTooLarge(binary.value.byteLength))
    ensures r.Success? <==>
      && binary.Some?
      && binary.value.byteLength <= MaxFileSize
      && Accepted(CorrectMimeType(binary.value.mimeType, FileNameOrDefault(binary.value)))
      && |binary.value.data| >= MinDataLength
    ensures r.Success? ==>
      && r.value.fileName == FileNameOrDefault(binary.value)
      && r.value.mimeType == CorrectMimeType(binary.value.mimeType, r.value.fileName)
      && r.value.data == binary.value.data
      && Accepted(r.value.mimeType)
    ensures r.Failure? && r.error.UnsupportedFormat? ==>
      && binary.Some?
      && r.error.declaredMimeType == binary.value.mimeType
      && !Accepted(r.error.mimeType)
    ensures r.Failure? && r.error.EmptyOrCorruptData? ==>
      binary.Some? && r.error.dataLength == |binary.value.data| < MinDataLength
    ensures (&& binary.Some? && binary.value.byteLength <= MaxFileSize
             && !Accepted(CorrectMimeType(binary.value.mimeType, FileNameOrDefault(binary.value)))) ==>
      r == Failure(UnsupportedFormat(CorrectMimeType(binary.value.mimeType, FileNameOrDefault(binary.value)), binary.value.mimeType))
    ensures (&& binary.Some? && binary.value.byteLength <= MaxFileSize
             && Accepted(CorrectMimeType(binary.value.mimeType, FileNameOrDefault(binary.value)))
             && |binary.value.data| < MinDataLength) ==>
      r == Failure(EmptyOrCorruptData(|binary.value.data|))
  {
    match binary
    case None => Failure(NoBinaryData(propertyName))
    case Some(b) =>
      if b.byteLength > MaxFileSize then Failure(FileTooLarge(b.byteLength))
      else
        var fileName := FileNameOrDefault(b);
        var mimeType := CorrectMimeType(b.mimeType, fileName);
        if !Accepted(mimeType) then Failure(UnsupportedFormat(mimeType, b.mimeType))
        else if |b.data| < MinDataLength then Failure(EmptyOrCorruptData(|b.data|))
        else Success(Upload(fileName, mimeType, b.data))
  }

  /** An attachment without a declared type is treated as a PDF and is never
      rejected for its format. */
  lemma MissingTypeIsPdf(b: BinaryData, propertyName: string)
    requires b.mimeType == "" && b.byteLength <= MaxFileSize && |b.data| >= MinDataLength
    ensures ValidateBinary(Some(b), propertyName) == Success(Upload(FileNameOrDefault(b), DefaultMimeType, b.data))
  {
    AcceptedIffPrefix(DefaultMimeType);
  }
}
