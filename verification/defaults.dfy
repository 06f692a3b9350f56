/** The node's constants: the default custom-field and bbox schemas, the provider
    endpoints, and the numeric limits. */
module Defaults {
  import opened Wrappers
  import opened OrderedMap
  import opened Types
  import Text

  /** `DEFAULT_CUSTOM_FIELDS` */
  const DefaultCustomFields: FieldMap := FromEntries([
    ("total_amount", FieldSpec("number", "Total amount including all taxes and fees", None)),
    ("document_date", FieldSpec("string", "Date when the document was created", None))
  ])

  /** `DEFAULT_BBOX_SCHEMA`, the element schema used for bbox annotations outside advanced mode. */
  const DefaultBboxSchema: FieldMap := FromEntries([
    ("element_type", FieldSpec("string", "Type of visual element (chart, table, figure, etc.)", None)),
    ("description", FieldSpec("string", "Description of what the element shows", None)),
    ("key_data", FieldSpec("array", "Key data points or insights from the element", Some(StringItems)))
  ])

  /** `MISTRAL_API_ENDPOINTS.UPLOAD` */
  const UploadUrl: string := "https://api.mistral.ai/v1/files"

  /** `MISTRAL_API_ENDPOINTS.OCR` */
  const OcrUrl: string := "https://api.mistral.ai/v1/ocr"

  /** `MISTRAL_API_ENDPOINTS.GET_URL(fileId)`: the signed-URL endpoint of an uploaded file.
      It sits under the upload endpoint, and the file id can be read back out of it. */
  function GetUrl(fileId: string): (url: string)
    ensures Text.StartsWith(url, UploadUrl + "/")
    ensures |url| == |UploadUrl| + 1 + |fileId| + 4
    ensures url[|UploadUrl| + 1..|url| - 4] == fileId
    ensures url[|url| - 4..] == "/url"
  {
    "https://api.mistral.ai/v1/files/" + fileId + "/url"
  }

  /** Distinct file ids give distinct signed-URL endpoints. */
  lemma GetUrlInjective(a: string, b: string)
    requires GetUrl(a) == GetUrl(b)
    ensures a == b
  {
  }

  /** `LIMITS` */
  const MaxDocumentPages: nat := 8
  const MaxFileSize: nat := 50 * 1024 * 1024
  const MaxTotalPages: nat := 1000
  const DefaultExpiryHours: nat := 24
  const MinExpiryHours: nat := 1
  const MaxExpiryHours: nat := 168

  lemma LimitsConsistent()
    ensures MinExpiryHours <= DefaultExpiryHours <= MaxExpiryHours
    ensures MaxFileSize == 52428800
    ensures MaxDocumentPages == 8
  {
  }

  /** The default bbox schema has exactly the keys element_type, description and key_data,
      and only key_data is an array, with string items. */
  lemma DefaultBboxShape()
    ensures Keys(DefaultBboxSchema) == ["element_type", "description", "key_data"]
    ensures forall i :: 0 <= i < |DefaultBboxSchema| ==>
      (DefaultBboxSchema[i].1.jsonType == "array" <==> DefaultBboxSchema[i].0 == "key_data")
    ensures forall i :: 0 <= i < |DefaultBboxSchema| ==>
      DefaultBboxSchema[i].1.items == (if DefaultBboxSchema[i].0 == "key_data" then Some(StringItems) else None)
  {
  }

  /** The default custom fields are total_amount (a number) and document_date (a string), neither an array. */
  lemma DefaultCustomFieldsShape()
    ensures Keys(DefaultCustomFields) == ["total_amount", "document_date"]
    ensures Get(DefaultCustomFields, "total_amount").Some? && Get(DefaultCustomFields, "total_amount").value.jsonType == "number"
    ensures Get(DefaultCustomFields, "document_date").Some? && Get(DefaultCustomFields, "document_date").value.jsonType == "string"
    ensures forall i :: 0 <= i < |DefaultCustomFields| ==>
      DefaultCustomFields[i].1.jsonType != "array" && DefaultCustomFields[i].1.items.None?
  {
  }
}
