/** `execute` of the Mistral OCR node: for every input item, validate the binary
    attachment, upload it, obtain a signed URL, assemble the OCR request (with
    document and bbox annotation formats for `ocrWithAnnotations`), submit it and
    attach execution metadata to the response; a failing item either becomes an
    error entry (continue-on-fail) or aborts the whole execution. */
module MistralOcrNode {
  import opened Wrappers
  import opened Text
  import opened OrderedMap
  import opened Types
  import opened Defaults
  import opened DocumentTemplates
  import opened SchemaUtils
  import opened Mime
  import opened Retry
  import opened JsonText

  const OcrWithAnnotations: string := "ocrWithAnnotations"
  const CustomTemplate: string := "custom"
  const DocumentAnnotationName: string := "DocumentAnnotation"
  const BboxAnnotationName: string := "BBoxAnnotation"
  const MetadataKey: string := "_metadata"

  /** The outcome of `JSON.parse` on an advanced-mode schema text: the parsed field
      declarations, or the parser's error message. */
  datatype JsonParse = Parsed(fields: FieldMap) | ParseError(message: string)

  /** The node parameters read for one item. `includeImageBase64` and `expiryHours`
      are the optional entries of `options`. */
  datatype ItemParams = ItemParams(
    operation: string,
    binaryPropertyName: string,
    model: string,
    includeImageBase64: Option<bool>,
    expiryHours: Option<int>,
    documentTemplate: string,
    includeBboxAnnotations: bool,
    advancedMode: bool,
    documentAnnotationSchema: JsonParse,
    bboxAnnotationSchema: JsonParse,
    customFields: CollectionInput,
    pages: string)

  /** One provider endpoint: what its `k`-th attempt returns and the random part of
      the `k`-th back-off delay. */
  datatype Endpoint = Endpoint(respond: nat -> CallOutcome, jitter: nat -> real)

  /** The three remote calls an item makes: upload, signed URL, OCR. */
  datatype Remote = Remote(upload: Endpoint, sign: Endpoint, ocr: Endpoint)

  /** An input item: parameters, its binary attachments by property name, the provider
      it talks to, and the clock reading `new Date().toISOString()` taken for it. */
  datatype Item = Item(params: ItemParams, binary: OMap<BinaryData>, remote: Remote, processedAt: string)

  /** A request the node sends. */
  datatype Request =
    | UploadRequest(upload: Upload)
    | SignRequest(url: string, expiryHours: int)
    | OcrRequest(body: OcrRequestBody)

  /** A logical remote call and how many attempts the retry helper made for it. */
  datatype CallRecord = CallRecord(request: Request, attempts: nat)

  datatype ItemRun = ItemRun(result: Result<Payload, ItemError>, calls: seq<CallRecord>)

  /** `options.expiryHours || LIMITS.DEFAULT_EXPIRY_HOURS`: a missing or zero value
      falls back to 24 hours; nothing else is clamped. */
  function Expiry(hours: Option<int>): (r: int)
    ensures r != 0
    ensures hours.Some? && hours.value != 0 ==> r == hours.value
    ensures hours.None? || hours.value == 0 ==> r == DefaultExpiryHours
  {
    if hours.None? || hours.value == 0 then DefaultExpiryHours else hours.value
  }

  /** The field declarations of the document annotation: parsed from JSON in advanced
      mode, built from the collection for the custom template, else the preset. */
  function DocumentSchema(p: ItemParams): (r: Result<FieldMap, ItemError>)
    ensures r.Failure? <==> p.advancedMode && p.documentAnnotationSchema.ParseError?
    ensures r.Failure? ==> r.error == InvalidDocumentSchemaJson(p.documentAnnotationSchema.message)
    ensures p.advancedMode && p.documentAnnotationSchema.Parsed? ==> r.value == p.documentAnnotationSchema.fields
    ensures !p.advancedMode && p.documentTemplate == CustomTemplate && p.customFields.FieldList? ==>
      Keys(r.value) == Dedup(AssignedNames(p.customFields.entries))
    ensures !p.advancedMode && p.documentTemplate != CustomTemplate ==>
      && WellFormedTemplate(r.value)
      && (forall id :: Name(id) == p.documentTemplate ==> r.value == Template(id))
      && ((forall id :: Name(id) != p.documentTemplate) ==> r.value == [])
  {
    if p.advancedMode then
      match p.documentAnnotationSchema
      case Parsed(m) => Success(m)
      case ParseError(msg) => Failure(InvalidDocumentSchemaJson(msg))
    else if p.documentTemplate == CustomTemplate then Success(BuildCustomFieldsFromCollection(p.customFields))
    else Success(GetDocumentTemplate(p.documentTemplate))
  }

  /** The third argument of the document `buildJsonSchema` call: the collection only
      in template mode with the custom template, `undefined` otherwise. */
  function RequiredConfig(p: ItemParams): (r: CollectionInput)
    ensures !p.advancedMode && p.documentTemplate == CustomTemplate ==> r == p.customFields
    ensures p.advancedMode || p.documentTemplate != CustomTemplate ==> r == NoFieldList
  {
    if p.documentTemplate == CustomTemplate && !p.advancedMode then p.customFields else NoFieldList
  }

  /** The bbox element schema: parsed from JSON in advanced mode, else the default. */
  function BboxSchema(p: ItemParams): (r: Result<FieldMap, ItemError>)
    ensures r.Failure? <==> p.advancedMode && p.bboxAnnotationSchema.ParseError?
    ensures r.Failure? ==> r.error == InvalidBboxSchemaJson(p.bboxAnnotationSchema.message)
    ensures p.advancedMode && p.bboxAnnotationSchema.Parsed? ==> r.value == p.bboxAnnotationSchema.fields
    ensures !p.advancedMode ==> r == Success(DefaultBboxSchema)
  {
    if p.advancedMode then
      match p.bboxAnnotationSchema
      case Parsed(m) => Success(m)
      case ParseError(msg) => Failure(InvalidBboxSchemaJson(msg))
    else Success(DefaultBboxSchema)
  }

  /** The document annotation format and page selection, or the error met while
      building them. */
  datatype DocumentPart = DocumentPart(format: Option<ResponseFormat>, pages: Option<seq<int>>)

  function DocumentAnnotation(p: ItemParams): (r: Result<DocumentPart, ItemError>)
    ensures p.advancedMode && p.documentAnnotationSchema.ParseError? ==>
      r == Failure(InvalidDocumentSchemaJson(p.documentAnnotationSchema.message))
    ensures r == Failure(TooManyPages) <==>
      DocumentSchema(p).Success? && |DocumentSchema(p).value| > 0 && |ParsePages(p.pages)| > MaxDocumentPages
    ensures r.Failure? ==> r.error.InvalidDocumentSchemaJson? || r.error.TooManyPages?
    ensures r.Success? ==>
      && DocumentSchema(p).Success?
      && (r.value.format.Some? <==> |DocumentSchema(p).value| > 0)
    ensures r.Success? && r.value.pages.Some? ==>
      && r.value.format.Some?
      && r.value.pages.value == ParsePages(p.pages)
      && 0 < |r.value.pages.value| <= MaxDocumentPages
    ensures r.Success? && r.value.format.Some? ==>
      && r.value.format.value.jsonSchema.name == "documentannotation"
      && Keys(r.value.format.value.jsonSchema.schema.properties) == Keys(DocumentSchema(p).value)
    ensures r.Success? <==>
      DocumentSchema(p).Success? && !(|DocumentSchema(p).value| > 0 && |ParsePages(p.pages)| > MaxDocumentPages)
    ensures r.Success? && r.value.format.Some? ==>
      && r.value.format.value == BuildJsonSchema(DocumentSchema(p).value, DocumentAnnotationName, RequiredConfig(p))
      && (r.value.pages.Some? <==> |ParsePages(p.pages)| > 0)
  {
    AnnotationNames();
    match DocumentSchema(p)
    case Failure(e) => Failure(e)
    case Success(doc) =>
      if |doc| == 0 then Success(DocumentPart(None, None))
      else
        var format := BuildJsonSchema(doc, DocumentAnnotationName, RequiredConfig(p));
        var pages := ParsePages(p.pages);
        if |pages| > MaxDocumentPages then Failure(TooManyPages)
        else Success(DocumentPart(Some(format), if |pages| > 0 then Some(pages) else None))
  }

  /** The bbox annotation format, present exactly when bbox annotations are asked for. */
  function BboxAnnotation(p: ItemParams): (r: Result<Option<ResponseFormat>, ItemError>)
    ensures r.Failure? ==>
      && p.includeBboxAnnotations && p.advancedMode
      && p.bboxAnnotationSchema.ParseError?
      && r.error == InvalidBboxSchemaJson(p.bboxAnnotationSchema.message)
    ensures r.Success? ==> (r.value.Some? <==> p.includeBboxAnnotations)
    ensures r.Success? && r.value.Some? ==>
      && r.value.value.jsonSchema.name == "bboxannotation"
      && r.value.value.jsonSchema.schema.required == []
      && (!p.advancedMode ==> Keys(r.value.value.jsonSchema.schema.properties) == Keys(DefaultBboxSchema))
    ensures r.Failure? <==> p.includeBboxAnnotations && p.advancedMode && p.bboxAnnotationSchema.ParseError?
    ensures r.Success? && r.value.Some? ==>
      && r.value.value == BuildJsonSchema(BboxSchema(p).value, BboxAnnotationName, NoFieldList)
      && Keys(r.value.value.jsonSchema.schema.properties) == Keys(BboxSchema(p).value)
  {
    AnnotationNames();
    if !p.includeBboxAnnotations then Success(None)
    else
      match BboxSchema(p)
      case Failure(e) => Failure(e)
      case Success(bbox) => Success(Some(BuildJsonSchema(bbox, BboxAnnotationName, NoFieldList)))
  }

  /** The annotation formats and page selection of the OCR request. They depend on
      the parameters only, so they are fixed before the item's first call; their
      errors surface when the request is assembled, after the signed URL. */
  datatype AnnotationParts = AnnotationParts(
    documentFormat: Option<ResponseFormat>,
    bboxFormat: Option<ResponseFormat>,
    pages: Option<seq<int>>)

  /** The `ocrWithAnnotations` branch: the document part first, then the bbox part;
      the first error met is the one raised. */
  function Annotations(p: ItemParams): (r: Result<AnnotationParts, ItemError>)
    ensures p.operation != OcrWithAnnotations ==> r == Success(AnnotationParts(None, None, None))
    ensures p.operation == OcrWithAnnotations ==>
      (r.Success? <==> DocumentAnnotation(p).Success? && BboxAnnotation(p).Success?)
    ensures p.operation == OcrWithAnnotations && r.Failure? ==>
      r.error == if DocumentAnnotation(p).Failure? then DocumentAnnotation(p).error else BboxAnnotation(p).error
    ensures r.Failure? ==>
      r.error.InvalidDocumentSchemaJson? || r.error.TooManyPages? || r.error.InvalidBboxSchemaJson?
    ensures p.operation == OcrWithAnnotations && r.Success? ==>
      r.value == AnnotationParts(DocumentAnnotation(p).value.format, BboxAnnotation(p).value, DocumentAnnotation(p).value.pages)
  {
    if p.operation != OcrWithAnnotations then Success(AnnotationParts(None, None, None))
    else
      match DocumentAnnotation(p)
      case Failure(e) => Failure(e)
      case Success(doc) =>
        match BboxAnnotation(p)
        case Failure(e) => Failure(e)
        case Success(bbox) => Success(AnnotationParts(doc.format, bbox, doc.pages))
  }

  /** The request body for a signed URL: model, document reference and image flag,
      with the annotation parts added, or their error. */
  function AssembleBody(p: ItemParams, url: Json, parts: Result<AnnotationParts, ItemError>): (r: Result<OcrRequestBody, ItemError>)
    ensures r.Success? <==> parts.Success?
    ensures r.Failure? ==> r.error == parts.error
    ensures r.Success? ==>
      && r.value.model == p.model
      && r.value.document == DocumentRef("document_url", url)
      && r.value.includeImageBase64 == (p.includeImageBase64 == Some(true))
      && r.value.documentAnnotationFormat == parts.value.documentFormat
      && r.value.bboxAnnotationFormat == parts.value.bboxFormat
      && r.value.pages == parts.value.pages
  {
    match parts
    case Failure(e) => Failure(e)
    case Success(a) =>
      Success(OcrRequestBody(p.model, DocumentRef("document_url", url), p.includeImageBase64 == Some(true),
        a.documentFormat, a.bboxFormat, a.pages))
  }

  /** `ocrRequestBody`, or the error raised while assembling it. Errors come in the
      order the node meets them: unparsable document schema, too many pages,
      unparsable bbox schema. */
  function BuildOcrBody(p: ItemParams, url: Json): (r: Result<OcrRequestBody, ItemError>)
    ensures r.Success? ==>
      && r.value.model == p.model
      && r.value.document == DocumentRef("document_url", url)
      && r.value.includeImageBase64 == (p.includeImageBase64 == Some(true))
    ensures p.operation != OcrWithAnnotations ==>
      r.Success? && r.value.documentAnnotationFormat.None? && r.value.bboxAnnotationFormat.None? && r.value.pages.None?
    ensures r.Failure? ==> p.operation == OcrWithAnnotations
    ensures p.operation == OcrWithAnnotations && p.advancedMode && p.documentAnnotationSchema.ParseError? ==>
      r == Failure(InvalidDocumentSchemaJson(p.documentAnnotationSchema.message))
    ensures r == Failure(TooManyPages) <==>
      && p.operation == OcrWithAnnotations
      && DocumentSchema(p).Success? && |DocumentSchema(p).value| > 0
      && |ParsePages(p.pages)| > MaxDocumentPages
    ensures r.Failure? && r.error.InvalidBboxSchemaJson? ==>
      && DocumentSchema(p).Success?
      && p.includeBboxAnnotations && p.advancedMode
      && p.bboxAnnotationSchema == ParseError(r.error.parserMessage)
    ensures r.Failure? ==>
      r.error.InvalidDocumentSchemaJson? || r.error.TooManyPages? || r.error.InvalidBboxSchemaJson?
    ensures r.Success? && p.operation == OcrWithAnnotations ==>
      && DocumentSchema(p).Success?
      && (r.value.documentAnnotationFormat.Some? <==> |DocumentSchema(p).value| > 0)
      && (r.value.bboxAnnotationFormat.Some? <==> p.includeBboxAnnotations)
    ensures r.Success? && r.value.pages.Some? ==>
      && r.value.documentAnnotationFormat.Some?
      && r.value.pages.value == ParsePages(p.pages)
      && 0 < |r.value.pages.value| <= MaxDocumentPages
    ensures r.Success? && r.value.documentAnnotationFormat.Some? ==>
      && r.value.documentAnnotationFormat.value.jsonSchema.name == "documentannotation"
      && Keys(r.value.documentAnnotationFormat.value.jsonSchema.schema.properties) == Keys(DocumentSchema(p).value)
    ensures r.Success? && r.value.bboxAnnotationFormat.Some? ==>
      && r.value.bboxAnnotationFormat.value.jsonSchema.name == "bboxannotation"
      && r.value.bboxAnnotationFormat.value.jsonSchema.schema.required == []
    ensures r.Success? <==> p.operation != OcrWithAnnotations || (DocumentAnnotation(p).Success? && BboxAnnotation(p).Success?)
    ensures r.Success? && p.operation == OcrWithAnnotations ==>
      && r.value.documentAnnotationFormat == DocumentAnnotation(p).value.format
      && r.value.bboxAnnotationFormat == BboxAnnotation(p).value
      && r.value.pages == DocumentAnnotation(p).value.pages
  {
    AssembleBody(p, url, Annotations(p))
  }

  /** The `name` the provider sees for each annotation format. */
  lemma AnnotationNames()
    ensures ToLower(DocumentAnnotationName) == "documentannotation"
    ensures ToLower(BboxAnnotationName) == "bboxannotation"
  {
    LowerName(DocumentAnnotationName, "documentannotation");
    LowerName(BboxAnnotationName, "bboxannotation");
  }

  lemma LowerName(name: string, lower: string)
    requires |name| == |lower|
    requires forall i :: 0 <= i < |name| ==> LowerChar(name[i]) == lower[i]
    ensures ToLower(name) == lower
  {
  }

  /** In template mode with a preset, the document format lists exactly the preset's
      fields and requires none of them. */
  lemma PresetTemplateRequiresNothing(p: ItemParams, url: Json, id: TemplateId)
    requires p.operation == OcrWithAnnotations && !p.advancedMode
    requires p.documentTemplate == Name(id) && id != Custom
    requires |ParsePages(p.pages)| <= MaxDocumentPages
    ensures var r := BuildOcrBody(p, url);
      && r.Success?
      && r.value.documentAnnotationFormat.Some?
      && Keys(r.value.documentAnnotationFormat.value.jsonSchema.schema.properties) == Keys(Template(id))
      && r.value.documentAnnotationFormat.value.jsonSchema.schema.required == []
  {
    assert Name(id) != CustomTemplate;
    assert DocumentSchema(p) == Success(Template(id));
  }

  /** With the custom template in template mode, the fields come from the collection
      and a field is required exactly when its collection entry says so. */
  lemma CustomTemplateRequiredFromCollection(p: ItemParams, url: Json, k: string)
    requires p.operation == OcrWithAnnotations && !p.advancedMode && p.documentTemplate == CustomTemplate
    requires BuildOcrBody(p, url).Success? && BuildOcrBody(p, url).value.documentAnnotationFormat.Some?
    ensures var schema := BuildOcrBody(p, url).value.documentAnnotationFormat.value.jsonSchema.schema;
      k in schema.required <==> k in Keys(BuildCustomFieldsFromCollection(p.customFields)) && IsMarkedRequired(p.customFields, k)
  {
    assert RequiredConfig(p) == p.customFields;
  }

  /** Advanced mode never marks a field required, even with the custom template
      selected and a collection filled in. */
  lemma AdvancedModeRequiresNothing(p: ItemParams, url: Json)
    requires p.advancedMode
    requires BuildOcrBody(p, url).Success? && BuildOcrBody(p, url).value.documentAnnotationFormat.Some?
    ensures BuildOcrBody(p, url).value.documentAnnotationFormat.value.jsonSchema.schema.required == []
  {
    assert RequiredConfig(p) == NoFieldList;
  }

  /** A template name that names no template, or an empty custom collection, adds no
      document format and no page selection, so no page count can fail the item. */
  lemma EmptySchemaSkipsPages(p: ItemParams, url: Json)
    requires p.operation == OcrWithAnnotations && !p.advancedMode
    requires DocumentSchema(p) == Success([])
    ensures BuildOcrBody(p, url).Success?
    ensures BuildOcrBody(p, url).value.documentAnnotationFormat.None? && BuildOcrBody(p, url).value.pages.None?
  {
  }

  /** The invoice preset with bbox annotations and the default page selection: ten
      document fields, none required, the three default bbox fields, pages 0 to 7. */
  lemma InvoiceWithBboxBody(p: ItemParams, url: Json)
    requires p.operation == OcrWithAnnotations && !p.advancedMode
    requires p.documentTemplate == "invoice" && p.includeBboxAnnotations && p.pages == "0-7"
    ensures var r := BuildOcrBody(p, url);
      && r.Success?
      && Keys(r.value.documentAnnotationFormat.value.jsonSchema.schema.properties) == Keys(InvoiceFields)
      && r.value.documentAnnotationFormat.value.jsonSchema.schema.required == []
      && Keys(r.value.bboxAnnotationFormat.value.jsonSchema.schema.properties) == ["element_type", "description", "key_data"]
      && r.value.pages == Some([0, 1, 2, 3, 4, 5, 6, 7])
  {
    ParsePagesDefault();
    FieldCounts();
    PresetTemplateRequiresNothing(p, url, Invoice);
    DefaultBboxShape();
    assert BboxSchema(p) == Success(DefaultBboxSchema);
  }

  /** `uploadResponse`, `signedUrlResponse`, `ocrResponse`: one call through the retry
      helper with its default limits. */
  function CallEndpoint(e: Endpoint): (r: RetryRun)
    ensures 1 <= r.attempts <= DefaultMaxRetries + 1
  {
    RetryFrom(e.respond, e.jitter, 0, DefaultMaxRetries, DefaultBaseDelay)
  }

  function FromRetry(e: RetryError): ItemError {
    match e
    case RateLimited => RateLimitExceeded
    case Rethrown(code, message) => CallFailed(code, message)
  }

  /** `NodeExecutionMetadata` for one item; the annotation keys are set only for
      `ocrWithAnnotations`. */
  function ItemMetadata(p: ItemParams, fileId: Json, signedUrl: Json, processedAt: string): (r: Metadata)
    ensures r.operation == p.operation && r.uploadedFileId == fileId
    ensures r.signedUrl == signedUrl && r.processedAt == processedAt
    ensures r.annotation.Some? <==> p.operation == OcrWithAnnotations
    ensures r.annotation.Some? ==>
      r.annotation.value == AnnotationMetadata(p.documentTemplate, p.includeBboxAnnotations, p.advancedMode)
  {
    Metadata(p.operation, fileId, signedUrl, processedAt,
      if p.operation == OcrWithAnnotations
      then Some(AnnotationMetadata(p.documentTemplate, p.includeBboxAnnotations, p.advancedMode))
      else None)
  }

  /** The metadata object, with its keys in the order the node assigns them. */
  function MetadataJson(m: Metadata): (r: Json)
    ensures r.Obj?
    ensures |r.fields| == if m.annotation.Some? then 7 else 4
    ensures r.fields[0] == ("operation", Str(m.operation))
    ensures r.fields[1] == ("uploadedFileId", m.uploadedFileId) && r.fields[2] == ("signedUrl", m.signedUrl)
    ensures r.fields[3] == ("processedAt", Str(m.processedAt))
    ensures m.annotation.Some? ==>
      && r.fields[4] == ("documentTemplate", Str(m.annotation.value.documentTemplate))
      && r.fields[5] == ("includeBboxAnnotations", Bool(m.annotation.value.includeBboxAnnotations))
      && r.fields[6] == ("advancedMode", Bool(m.annotation.value.advancedMode))
  {
    var base := [
      ("operation", Str(m.operation)),
      ("uploadedFileId", m.uploadedFileId),
      ("signedUrl", m.signedUrl),
      ("processedAt", Str(m.processedAt))];
    match m.annotation
    case None => Obj(base)
    case Some(a) =>
      Obj(base + [
        ("documentTemplate", Str(a.documentTemplate)),
        ("includeBboxAnnotations", Bool(a.includeBboxAnnotations)),
        ("advancedMode", Bool(a.advancedMode))])
  }

  /** Every metadata entry reads back by its key, and the annotation keys are present
      exactly for `ocrWithAnnotations` metadata. */
  lemma MetadataReadBack(m: Metadata)
    ensures var f := MetadataJson(m).fields;
      && Get(f, "operation") == Some(Str(m.operation))
      && Get(f, "uploadedFileId") == Some(m.uploadedFileId)
      && Get(f, "signedUrl") == Some(m.signedUrl)
      && Get(f, "processedAt") == Some(Str(m.processedAt))
      && (Get(f, "documentTemplate").Some? <==> m.annotation.Some?)
      && (m.annotation.Some? ==>
        && Get(f, "documentTemplate") == Some(Str(m.annotation.value.documentTemplate))
        && Get(f, "includeBboxAnnotations") == Some(Bool(m.annotation.value.includeBboxAnnotations))
        && Get(f, "advancedMode") == Some(Bool(m.annotation.value.advancedMode)))
  {
    var f := MetadataJson(m).fields;
    assert UniqueKeys(f);
    var om: OMap<Json> := f;
    GetAt(om, 0);
    GetAt(om, 1);
    GetAt(om, 2);
    GetAt(om, 3);
    GetSomeIffKey(f, "documentTemplate");
    if m.annotation.Some? {
      GetAt(om, 4);
      GetAt(om, 5);
      GetAt(om, 6);
    } else {
      assert Keys(f) == ["operation", "uploadedFileId", "signedUrl", "processedAt"];
    }
  }

  /** The position of a request in the fixed upload, sign, OCR sequence. */
  function Stage(r: Request): nat {
    match r
    case UploadRequest(_) => 0
    case SignRequest(_, _) => 1
    case OcrRequest(_) => 2
  }

  /** `calls` are the requests of stages `first`, `first + 1`, ... in that order,
      each made with one to four attempts. */
  predicate StagesFrom(calls: seq<CallRecord>, first: nat) {
    && first + |calls| <= 3
    && forall k :: 0 <= k < |calls| ==>
      Stage(calls[k].request) == first + k && 1 <= calls[k].attempts <= DefaultMaxRetries + 1
  }

  /** The errors the attachment checks raise before any call is made. */
  predicate IsValidationError(e: ItemError) {
    e.NoBinaryData? || e.FileTooLarge? || e.UnsupportedFormat? || e.EmptyOrCorruptData?
  }

  /** `{ ...ocrResponse, _metadata: metadata }`: the OCR response with an object set
      under `_metadata`. */
  predicate MergesMetadata(out: Payload, ocr: Payload) {
    && Get(out, MetadataKey).Some? && Get(out, MetadataKey).value.Obj?
    && out == Put(ocr, MetadataKey, Get(out, MetadataKey).value)
  }

  /** The `id` of the upload's answer; `None` when the upload failed or had no id. */
  function UploadedId(item: Item): Option<Json> {
    var up := CallEndpoint(item.remote.upload).result;
    if up.Success? then Field(up.value, "id") else None
  }

  /** The `url` of the signed-URL answer; `None` when that call failed or had no url. */
  function SignedUrl(item: Item): Option<Json> {
    var sign := CallEndpoint(item.remote.sign).result;
    if sign.Success? then Field(sign.value, "url") else None
  }

  /** Steps 3 to 5: build the OCR request, submit it, and merge the metadata into
      the answer. */
  function SubmitOcr(item: Item, fileId: Json, url: Json, parts: Result<AnnotationParts, ItemError>): (r: ItemRun)
    ensures StagesFrom(r.calls, 2)
    ensures r.calls == [] <==> parts.Failure?
    ensures r.calls == [] ==> r.result == Failure(parts.error)
    ensures |r.calls| == 1 ==> r.calls[0].request == OcrRequest(AssembleBody(item.params, url, parts).value)
    ensures r.result.Success? ==>
      Get(r.result.value, MetadataKey) == Some(MetadataJson(ItemMetadata(item.params, fileId, url, item.processedAt)))
    ensures r.result.Success? ==>
      && |r.calls| == 1
      && CallEndpoint(item.remote.ocr).result.Success?
      && MergesMetadata(r.result.value, CallEndpoint(item.remote.ocr).result.value)
    ensures (parts.Failure? ==> !IsValidationError(parts.error)) ==>
      (r.result.Failure? ==> !IsValidationError(r.result.error))
    ensures r.result.Failure? && |r.calls| == 1 ==>
      && CallEndpoint(item.remote.ocr).result.Failure?
      && r.result.error == FromRetry(CallEndpoint(item.remote.ocr).result.error)
  {
    match AssembleBody(item.params, url, parts)
    case Failure(e) => ItemRun(Failure(e), [])
    case Success(body) =>
      var ocrRun := CallEndpoint(item.remote.ocr);
      var calls := [CallRecord(OcrRequest(body), ocrRun.attempts)];
      if ocrRun.result.Failure? then ItemRun(Failure(FromRetry(ocrRun.result.error)), calls)
      else
        var metadata := ItemMetadata(item.params, fileId, url, item.processedAt);
        ItemRun(Success(Put(ocrRun.result.value, MetadataKey, MetadataJson(metadata))), calls)
  }

  /** Step 2: ask for a signed URL for the uploaded file, then go on to the OCR request. */
  function RequestSignedUrl(item: Item, fileId: Json, parts: Result<AnnotationParts, ItemError>): (r: ItemRun)
    ensures StagesFrom(r.calls, 1) && |r.calls| >= 1
    ensures r.calls[0].request == SignRequest(GetUrl(TemplateText(fileId)), Expiry(item.params.expiryHours))
    ensures |r.calls| == 2 <==> Truthy(SignedUrl(item)) && parts.Success?
    ensures |r.calls| == 2 ==>
      r.calls[1].request == OcrRequest(AssembleBody(item.params, SignedUrl(item).value, parts).value)
    ensures |r.calls| == 1 ==>
      r.result == if CallEndpoint(item.remote.sign).result.Failure? then Failure(FromRetry(CallEndpoint(item.remote.sign).result.error))
                  else if !Truthy(SignedUrl(item)) then Failure(SignedUrlFailed)
                  else Failure(parts.error)
    ensures r.result.Success? ==>
      Get(r.result.value, MetadataKey) == Some(MetadataJson(ItemMetadata(item.params, fileId, SignedUrl(item).value, item.processedAt)))
    ensures r.result.Success? ==>
      && |r.calls| == 2
      && CallEndpoint(item.remote.ocr).result.Success?
      && MergesMetadata(r.result.value, CallEndpoint(item.remote.ocr).result.value)
    ensures (parts.Failure? ==> !IsValidationError(parts.error)) ==>
      (r.result.Failure? ==> !IsValidationError(r.result.error))
    ensures r.result.Failure? && |r.calls| == 2 ==>
      && CallEndpoint(item.remote.ocr).result.Failure?
      && r.result.error == FromRetry(CallEndpoint(item.remote.ocr).result.error)
  {
    var signRun := CallEndpoint(item.remote.sign);
    var call := CallRecord(SignRequest(GetUrl(TemplateText(fileId)), Expiry(item.params.expiryHours)), signRun.attempts);
    if signRun.result.Failure? then ItemRun(Failure(FromRetry(signRun.result.error)), [call])
    else
      var url := Field(signRun.result.value, "url");
      if !Truthy(url) then ItemRun(Failure(SignedUrlFailed), [call])
      else
        var rest := SubmitOcr(item, fileId, url.value, parts);
        ItemRun(rest.result, [call] + rest.calls)
  }

  /** Step 1: upload the checked attachment, then go on to the signed URL. */
  function UploadFile(item: Item, upload: Upload, parts: Result<AnnotationParts, ItemError>): (r: ItemRun)
    ensures StagesFrom(r.calls, 0) && |r.calls| >= 1
    ensures r.calls[0].request == UploadRequest(upload)
    ensures |r.calls| >= 2 <==> Truthy(UploadedId(item))
    ensures |r.calls| >= 2 ==>
      && CallEndpoint(item.remote.upload).result.Success?
      && var fileId := Field(CallEndpoint(item.remote.upload).result.value, "id");
      && Truthy(fileId)
      && r.calls[1].request == SignRequest(GetUrl(TemplateText(fileId.value)), Expiry(item.params.expiryHours))
    ensures r.result.Success? ==>
      && |r.calls| == 3
      && CallEndpoint(item.remote.ocr).result.Success?
      && MergesMetadata(r.result.value, CallEndpoint(item.remote.ocr).result.value)
    ensures (parts.Failure? ==> !IsValidationError(parts.error)) ==>
      (r.result.Failure? ==> !IsValidationError(r.result.error))
    ensures r.result.Failure? && |r.calls| == 3 ==>
      && CallEndpoint(item.remote.ocr).result.Failure?
      && r.result.error == FromRetry(CallEndpoint(item.remote.ocr).result.error)
  {
    var upRun := CallEndpoint(item.remote.upload);
    var call := CallRecord(UploadRequest(upload), upRun.attempts);
    if upRun.result.Failure? then ItemRun(Failure(FromRetry(upRun.result.error)), [call])
    else
      var fileId := Field(upRun.result.value, "id");
      if !Truthy(fileId) then ItemRun(Failure(UploadFailed), [call])
      else
        var rest := RequestSignedUrl(item, fileId.value, parts);
        ItemRun(rest.result, [call] + rest.calls)
  }

  /** An upload that fails, or answers without an `id`, ends the item after its one call. */
  lemma UploadStops(item: Item, upload: Upload, parts: Result<AnnotationParts, ItemError>)
    requires !Truthy(UploadedId(item))
    ensures var r := UploadFile(item, upload, parts);
      && |r.calls| == 1
      && r.result == if CallEndpoint(item.remote.upload).result.Failure?
                     then Failure(FromRetry(CallEndpoint(item.remote.upload).result.error))
                     else Failure(UploadFailed)
  {
  }

  /** After an upload with an `id`, the sign call's outcome decides the rest as in
      `RequestSignedUrl`, with that `id` as the file id. */
  lemma UploadContinues(item: Item, upload: Upload, parts: Result<AnnotationParts, ItemError>)
    requires Truthy(UploadedId(item))
    ensures var r := UploadFile(item, upload, parts);
      var rest := RequestSignedUrl(item, UploadedId(item).value, parts);
      && r.result == rest.result
      && r.calls == [CallRecord(UploadRequest(upload), CallEndpoint(item.remote.upload).attempts)] + rest.calls
  {
  }

  /** The body of the item loop's `try` block for one item. */
  function ProcessItem(item: Item): (r: ItemRun)
    ensures r.calls == [] <==> CheckedUpload(item).Failure?
    ensures r.calls == [] ==> r.result == CheckedUpload(item).PropagateFailure()
    ensures StagesFrom(r.calls, 0)
    ensures r.result.Success? ==>
      && |r.calls| == 3
      && CallEndpoint(item.remote.ocr).result.Success?
      && MergesMetadata(r.result.value, CallEndpoint(item.remote.ocr).result.value)
    ensures r.result.Failure? && |r.calls| > 0 ==> !IsValidationError(r.result.error)
  {
    match CheckedUpload(item)
    case Failure(e) => ItemRun(Failure(e), [])
    case Success(upload) => UploadFile(item, upload, Annotations(item.params))
  }

  /** A successful item's output is the OCR response with `_metadata` set: every other
      key keeps its value and position, and `_metadata` is appended unless the
      response already had one, which it then replaces in place. */
  lemma OutputKeepsOcrResponse(item: Item, k: string)
    requires ProcessItem(item).result.Success?
    ensures var ocr := CallEndpoint(item.remote.ocr).result.value;
      var out := ProcessItem(item).result.value;
      && CallEndpoint(item.remote.ocr).result.Success?
      && Get(out, MetadataKey).Some? && Get(out, MetadataKey).value.Obj?
      && (k != MetadataKey ==> Get(out, k) == Get(ocr, k))
      && (MetadataKey in Keys(ocr) ==> Keys(out) == Keys(ocr))
      && (MetadataKey !in Keys(ocr) ==> Keys(out) == Keys(ocr) + [MetadataKey])
  {
    var ocr := CallEndpoint(item.remote.ocr).result.value;
    var out := ProcessItem(item).result.value;
    if k != MetadataKey {
      GetPutOther(ocr, MetadataKey, Get(out, MetadataKey).value, k);
    }
  }

  /** The signed-URL request asks for the file the upload returned; a string id can be
      read back out of the request URL. */
  lemma SignUsesUploadedId(item: Item)
    requires |ProcessItem(item).calls| >= 2
    ensures var fileId := Field(CallEndpoint(item.remote.upload).result.value, "id");
      && CallEndpoint(item.remote.upload).result.Success?
      && Truthy(fileId)
      && ProcessItem(item).calls[1].request == SignRequest(GetUrl(TemplateText(fileId.value)), Expiry(item.params.expiryHours))
      && (fileId.value.Str? ==> ProcessItem(item).calls[1].request.url[|UploadUrl| + 1..|ProcessItem(item).calls[1].request.url| - 4] == fileId.value.s)
  {
    var upload := ValidateBinary(Get(item.binary, item.params.binaryPropertyName), item.params.binaryPropertyName).value;
    assert ProcessItem(item) == UploadFile(item, upload, Annotations(item.params));
  }

  /** A failure after the OCR request was sent is that request's error. */
  lemma FailuresAfterUpload(item: Item)
    requires ProcessItem(item).result.Failure? && |ProcessItem(item).calls| == 3
    ensures CallEndpoint(item.remote.ocr).result.Failure?
    ensures ProcessItem(item).result.error == FromRetry(CallEndpoint(item.remote.ocr).result.error)
  {
    var upload := ValidateBinary(Get(item.binary, item.params.binaryPropertyName), item.params.binaryPropertyName).value;
    assert ProcessItem(item) == UploadFile(item, upload, Annotations(item.params));
  }

  /** An upload answered without a usable id stops the item before any further call. */
  lemma MissingIdStopsItem(item: Item)
    requires ValidateBinary(Get(item.binary, item.params.binaryPropertyName), item.params.binaryPropertyName).Success?
    requires CallEndpoint(item.remote.upload).result.Success?
    requires !Truthy(Field(CallEndpoint(item.remote.upload).result.value, "id"))
    ensures ProcessItem(item).result == Failure(UploadFailed)
    ensures |ProcessItem(item).calls| == 1
  {
  }

  /** The item's attachment after the checks, or the error they raise. */
  function CheckedUpload(item: Item): Result<Upload, ItemError> {
    ValidateBinary(Get(item.binary, item.params.binaryPropertyName), item.params.binaryPropertyName)
  }

  /** One item end to end. It sends the OCR request exactly when the attachment passes
      the checks, the upload answers with an `id`, the sign call answers with a `url`
      and the request body can be built, and that request is `BuildOcrBody` for the
      signed URL. It succeeds exactly when, in addition, the OCR call succeeds, and
      its output is then the OCR response with the item's metadata under `_metadata`. */
  lemma ItemOutcome(item: Item)
    ensures |ProcessItem(item).calls| == 3 <==>
      && CheckedUpload(item).Success? && Truthy(UploadedId(item)) && Truthy(SignedUrl(item))
      && BuildOcrBody(item.params, SignedUrl(item).value).Success?
    ensures |ProcessItem(item).calls| == 3 ==>
      ProcessItem(item).calls[2].request == OcrRequest(BuildOcrBody(item.params, SignedUrl(item).value).value)
    ensures ProcessItem(item).result.Success? <==>
      |ProcessItem(item).calls| == 3 && CallEndpoint(item.remote.ocr).result.Success?
    ensures ProcessItem(item).result.Success? ==>
      ProcessItem(item).result.value == Put(CallEndpoint(item.remote.ocr).result.value, MetadataKey,
        MetadataJson(ItemMetadata(item.params, UploadedId(item).value, SignedUrl(item).value, item.processedAt)))
  {
    if CheckedUpload(item).Success? {
      var upload := CheckedUpload(item).value;
      var parts := Annotations(item.params);
      assert ProcessItem(item) == UploadFile(item, upload, parts);
      if Truthy(UploadedId(item)) {
        UploadContinues(item, upload, parts);
        if Truthy(SignedUrl(item)) {
          assert BuildOcrBody(item.params, SignedUrl(item).value) == AssembleBody(item.params, SignedUrl(item).value, parts);
        }
      } else {
        UploadStops(item, upload, parts);
      }
    }
  }

  /** Once the upload and the sign call have answered, an error in building the
      request body ends the item with that error, after those two calls only. */
  lemma BodyErrorStopsItem(item: Item)
    requires CheckedUpload(item).Success? && Truthy(UploadedId(item)) && Truthy(SignedUrl(item))
    requires BuildOcrBody(item.params, SignedUrl(item).value).Failure?
    ensures ProcessItem(item).result == Failure(BuildOcrBody(item.params, SignedUrl(item).value).error)
    ensures |ProcessItem(item).calls| == 2
  {
    var upload := CheckedUpload(item).value;
    var parts := Annotations(item.params);
    assert ProcessItem(item) == UploadFile(item, upload, parts);
    UploadContinues(item, upload, parts);
    assert BuildOcrBody(item.params, SignedUrl(item).value) == AssembleBody(item.params, SignedUrl(item).value, parts);
  }

  /** An advanced-mode document schema that does not parse is reported only after the
      file was uploaded and a signed URL obtained: the item spends both calls and
      then fails with the parser's message. */
  lemma SchemaErrorAfterSign(item: Item)
    requires CheckedUpload(item).Success? && Truthy(UploadedId(item)) && Truthy(SignedUrl(item))
    requires item.params.operation == OcrWithAnnotations && item.params.advancedMode
    requires item.params.documentAnnotationSchema.ParseError?
    ensures ProcessItem(item).result == Failure(InvalidDocumentSchemaJson(item.params.documentAnnotationSchema.message))
    ensures |ProcessItem(item).calls| == 2
    ensures ProcessItem(item).calls[0].request.UploadRequest? && ProcessItem(item).calls[1].request.SignRequest?
  {
    BodyErrorStopsItem(item);
  }

  // ---------------------------------------------------------------------------
  // Error messages and the per-item output

  const RateLimitMessage: string :=
    "Mistral API rate limit exceeded. Service tier capacity exceeded for this model. Please try again later or consider upgrading your Mistral API plan."

  const DocumentSchemaLead: string := "Invalid Document Annotation Schema JSON: "
  const BboxSchemaLead: string := "Invalid BBox Annotation Schema JSON: "

  /** A message made of a fixed lead-in followed by `msg`. */
  function Prefixed(lead: string, msg: string): (r: string)
    ensures |r| == |lead| + |msg|
    ensures r[..|lead|] == lead && r[|lead|..] == msg
  {
    lead + msg
  }

  /** `error.message` of each error an item can end with. */
  function ErrorMessage(e: ItemError): string {
    match e
    case NoBinaryData(name) => "No binary data found in property \"" + name + "\""
    case FileTooLarge(bytes) =>
      "File size (" + NatToString(RoundedMegabytes(bytes)) + "MB) exceeds the maximum allowed size of "
        + NatToString(MaxFileSize / 1024 / 1024) + "MB"
    case UnsupportedFormat(mimeType, declared) =>
      "Unsupported file format: " + mimeType + ". File appears to be detected as \"" + declared
        + "\". Supported formats: PDF, Images, Word, PowerPoint, RTF, EPUB, LaTeX, Jupyter Notebooks."
    case EmptyOrCorruptData(n) =>
      "Binary data is empty or corrupted. Expected a valid file but got " + NatToString(n) + " characters of data."
    case UploadFailed => "Failed to upload file to Mistral API"
    case SignedUrlFailed => "Failed to get signed URL from Mistral API"
    case InvalidDocumentSchemaJson(msg) => Prefixed(DocumentSchemaLead, msg)
    case TooManyPages => "Document Annotations are limited to maximum " + NatToString(MaxDocumentPages) + " pages"
    case InvalidBboxSchemaJson(msg) => Prefixed(BboxSchemaLead, msg)
    case RateLimitExceeded => RateLimitMessage
    case CallFailed(_, message) => message
  }

  /** A provider error keeps the provider's message; exhausted retries give the fixed
      rate-limit text. */
  lemma ProviderMessageKept(e: ItemError)
    ensures e.CallFailed? ==> ErrorMessage(e) == e.message
    ensures e.RateLimitExceeded? ==> ErrorMessage(e) == RateLimitMessage
  {
  }

  /** A schema error's message ends with the JSON parser's message. */
  lemma SchemaMessageKept(e: ItemError)
    ensures e.InvalidDocumentSchemaJson? || e.InvalidBboxSchemaJson? ==>
      && |ErrorMessage(e)| >= |e.parserMessage|
      && ErrorMessage(e)[|ErrorMessage(e)| - |e.parserMessage|..] == e.parserMessage
  {
  }

  /** The page-limit message quotes the limit of 8 pages. */
  lemma PageLimitMessage()
    ensures ErrorMessage(TooManyPages) == "Document Annotations are limited to maximum 8 pages"
  {
    assert NatToString(8) == "8";
  }

  /** One entry of the node's output: `{ json, pairedItem? }`. */
  datatype OutputItem = OutputItem(json: Payload, pairedItem: Option<nat>)

  /** The output entry for item `index`: the response, or `{ error: message }` paired
      with the item under continue-on-fail. */
  function ItemOutput(result: Result<Payload, ItemError>, index: nat): (r: OutputItem)
    ensures result.Success? ==> r == OutputItem(result.value, None)
    ensures result.Failure? ==>
      && r.pairedItem == Some(index)
      && Keys(r.json) == ["error"]
      && Get(r.json, "error") == Some(Str(ErrorMessage(result.error)))
  {
    match result
    case Success(payload) => OutputItem(payload, None)
    case Failure(e) => OutputItem(FromEntries([("error", Str(ErrorMessage(e)))]), Some(index))
  }

  /** The end of `execute`: every item's output in input order, or the first error
      when continue-on-fail is off. */
  datatype ExecutionResult = Completed(outputs: seq<OutputItem>) | Aborted(error: ItemError, itemIndex: nat)

  /** The result together with the calls each processed item made, in item order. */
  datatype ExecutionRun = ExecutionRun(result: ExecutionResult, calls: seq<seq<CallRecord>>)

  /** What processing each item would give; the loop consults them in order and
      stops consulting them at an abort. */
  function Runs(items: seq<Item>): (runs: seq<ItemRun>)
    ensures |runs| == |items|
    ensures forall k :: 0 <= k < |items| ==> runs[k] == ProcessItem(items[k])
  {
    seq(|items|, k requires 0 <= k < |items| => ProcessItem(items[k]))
  }

  /** The item loop from item `start` on, over the items' runs. */
  function ExecuteFrom(runs: seq<ItemRun>, continueOnFail: bool, start: nat): (r: ExecutionRun)
    requires start <= |runs|
    ensures r.result.Completed? ==>
      && |r.result.outputs| == |runs| - start
      && |r.calls| == |runs| - start
      && forall k :: 0 <= k < |r.result.outputs| ==>
        r.result.outputs[k] == ItemOutput(runs[start + k].result, start + k)
    ensures continueOnFail ==> r.result.Completed?
    ensures !continueOnFail ==>
      (r.result.Completed? <==> forall k :: start <= k < |runs| ==> runs[k].result.Success?)
    ensures r.result.Aborted? ==>
      && !continueOnFail
      && start <= r.result.itemIndex < |runs|
      && runs[r.result.itemIndex].result == Failure(r.result.error)
      && (forall k :: start <= k < r.result.itemIndex ==> runs[k].result.Success?)
      && |r.calls| == r.result.itemIndex - start + 1
    ensures |r.calls| <= |runs| - start
    ensures forall k :: 0 <= k < |r.calls| ==> r.calls[k] == runs[start + k].calls
    decreases |runs| - start
  {
    if start == |runs| then ExecutionRun(Completed([]), [])
    else
      var run := runs[start];
      if run.result.Failure? && !continueOnFail then ExecutionRun(Aborted(run.result.error, start), [run.calls])
      else
        var rest := ExecuteFrom(runs, continueOnFail, start + 1);
        var calls := [run.calls] + rest.calls;
        match rest.result
        case Aborted(e, i) => ExecutionRun(Aborted(e, i), calls)
        case Completed(outputs) => ExecutionRun(Completed([ItemOutput(run.result, start)] + outputs), calls)
  }

  /** `execute(items)`: with continue-on-fail every item yields one output in input
      order; without it the first failing item aborts the run, and no item after it
      makes a call. */
  function Execute(items: seq<Item>, continueOnFail: bool): (r: ExecutionRun)
    ensures continueOnFail ==> r.result.Completed?
    ensures r.result.Completed? ==>
      && |r.result.outputs| == |items|
      && forall k :: 0 <= k < |items| ==> r.result.outputs[k] == ItemOutput(ProcessItem(items[k]).result, k)
  {
    ExecuteFrom(Runs(items), continueOnFail, 0)
  }

  /** Without continue-on-fail, the run aborts at the first failing item with that
      item's error; the items up to it made their calls and no later item made any. */
  lemma ExecuteStopsAtFirstFailure(items: seq<Item>, continueOnFail: bool)
    ensures var r := Execute(items, continueOnFail);
      && (r.result.Aborted? ==>
        && r.result.itemIndex < |items|
        && ProcessItem(items[r.result.itemIndex]).result == Failure(r.result.error)
        && (forall k :: 0 <= k < r.result.itemIndex ==> ProcessItem(items[k]).result.Success?)
        && |r.calls| == r.result.itemIndex + 1)
      && |r.calls| <= |items|
      && forall k :: 0 <= k < |r.calls| ==> r.calls[k] == ProcessItem(items[k]).calls
  {
  }

  /** The item loop of `execute` as the node writes it, over the items' runs: a `try`
      around each item, with the `catch` either pushing an error entry or rethrowing. */
  method ExecuteLoop(runs: seq<ItemRun>, continueOnFail: bool) returns (r: ExecutionResult)
    ensures r == ExecuteFrom(runs, continueOnFail, 0).result
  {
    var returnData: seq<OutputItem> := [];
    var i := 0;
    while i < |runs|
      invariant 0 <= i <= |runs|
      invariant |returnData| == i
      invariant forall k :: 0 <= k < i ==> returnData[k] == ItemOutput(runs[k].result, k)
      invariant !continueOnFail ==> forall k :: 0 <= k < i ==> runs[k].result.Success?
    {
      var run := runs[i];
      if run.result.Failure? && !continueOnFail {
        AbortsFrom(runs, 0, i);
        return Aborted(run.result.error, i);
      }
      returnData := returnData + [ItemOutput(run.result, i)];
      i := i + 1;
    }
    CompletesFrom(runs, continueOnFail, returnData);
    return Completed(returnData);
  }

  /** Without continue-on-fail, the first failing item aborts the execution with
      that item's error. */
  lemma {:induction false} AbortsFrom(runs: seq<ItemRun>, start: nat, i: nat)
    requires start <= i < |runs| && runs[i].result.Failure?
    requires forall k :: start <= k < i ==> runs[k].result.Success?
    ensures ExecuteFrom(runs, false, start).result == Aborted(runs[i].result.error, i)
    decreases i - start
  {
    if start < i {
      AbortsFrom(runs, start + 1, i);
    }
  }

  /** When no item aborts the loop, its output is one entry per item in order. */
  lemma CompletesFrom(runs: seq<ItemRun>, continueOnFail: bool, outputs: seq<OutputItem>)
    requires |outputs| == |runs|
    requires forall k :: 0 <= k < |runs| ==> outputs[k] == ItemOutput(runs[k].result, k)
    requires !continueOnFail ==> forall k :: 0 <= k < |runs| ==> runs[k].result.Success?
    ensures ExecuteFrom(runs, continueOnFail, 0).result == Completed(outputs)
  {
    var r := ExecuteFrom(runs, continueOnFail, 0);
    assert r.result.outputs == outputs;
  }
}
