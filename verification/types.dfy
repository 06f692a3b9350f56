/** The records the node passes around: field declarations, the provider's
    strict JSON-schema response format, the OCR request body, opaque JSON
    payloads, execution metadata and the per-item error kinds. */
module Types {
  import opened Wrappers
  import opened OrderedMap

  /** `{ type: string }`, the element schema of an array-typed field. */
  datatype ItemsSpec = ItemsSpec(itemType: string)

  /** One entry of `CustomFieldSchema`: `{ type, description, items? }`. The type is
      kept as text because the field collection and advanced-mode JSON may carry any
      type name (the UI also offers `date`). */
  datatype FieldSpec = FieldSpec(jsonType: string, description: string, items: Option<ItemsSpec>)

  /** `CustomFieldSchema` / `DocumentTemplate`: field name to declaration, in key order. */
  type FieldMap = OMap<FieldSpec>

  /** The element schema every array-typed field gets: `{ type: 'string' }`. */
  const StringItems: ItemsSpec := ItemsSpec("string")

  /** `properties[key]` of the built schema: `{ type, title, description?, items? }`. */
  datatype PropertySchema = PropertySchema(
    jsonType: string, title: string, description: Option<string>, items: Option<ItemsSpec>)

  /** `json_schema.schema`: `{ properties, required, title, type, additionalProperties }`. */
  datatype ObjectSchema = ObjectSchema(
    properties: OMap<PropertySchema>, required: seq<string>, title: string,
    jsonType: string, additionalProperties: bool)

  /** `json_schema`: `{ schema, name, strict }`. */
  datatype JsonSchemaSpec = JsonSchemaSpec(schema: ObjectSchema, name: string, strict: bool)

  /** The response format an annotation carries: `{ type: 'json_schema', json_schema }`. */
  datatype ResponseFormat = ResponseFormat(formatType: string, jsonSchema: JsonSchemaSpec)

  /** `document: { type: 'document_url', document_url }`; the URL is passed on as
      the signing call returned it. */
  datatype DocumentRef = DocumentRef(refType: string, documentUrl: Json)

  /** `MistralOcrRequest`: the body of the OCR submission; `None` is an absent key. */
  datatype OcrRequestBody = OcrRequestBody(
    model: string,
    document: DocumentRef,
    includeImageBase64: bool,
    documentAnnotationFormat: Option<ResponseFormat>,
    bboxAnnotationFormat: Option<ResponseFormat>,
    pages: Option<seq<int>>)

  /** A JSON value as the provider returns it. Numbers are modelled as integers. */
  datatype Json =
    | Null
    | Bool(b: bool)
    | Num(n: int)
    | Str(s: string)
    | Arr(elems: seq<Json>)
    | Obj(fields: seq<(string, Json)>)

  /** A JSON object returned by a remote call, with its own keys in order. */
  type Payload = OMap<Json>

  /** `NodeExecutionMetadata`; `annotation` holds the three keys set only for `ocrWithAnnotations`. */
  datatype AnnotationMetadata = AnnotationMetadata(
    documentTemplate: string, includeBboxAnnotations: bool, advancedMode: bool)

  /** The file id and signed URL are kept as the provider returned them. */
  datatype Metadata = Metadata(
    operation: string, uploadedFileId: Json, signedUrl: Json, processedAt: string,
    annotation: Option<AnnotationMetadata>)

  /** Every way one item can fail, in the order the node can raise them. */
  datatype ItemError =
    | NoBinaryData(propertyName: string)
    | FileTooLarge(byteLength: nat)
    | UnsupportedFormat(mimeType: string, declaredMimeType: string)
    | EmptyOrCorruptData(dataLength: nat)
    | UploadFailed
    | SignedUrlFailed
    | InvalidDocumentSchemaJson(parserMessage: string)
    | TooManyPages
    | InvalidBboxSchemaJson(parserMessage: string)
    | RateLimitExceeded
    | CallFailed(httpCode: string, message: string)
}
