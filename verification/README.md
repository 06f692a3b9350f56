# Mistral OCR node: a Dafny model

This project models the execution core of the n8n "Mistral OCR" community node. The node takes workflow items that carry a binary document. For each item it:

1. checks the attachment and repairs its MIME type;
2. uploads it to the Mistral files endpoint;
3. asks for a signed URL;
4. builds an OCR request and submits it. For the `ocrWithAnnotations` operation the request also carries strict JSON-schema response formats for document and bounding-box annotations.

It then attaches execution metadata to the provider's answer. Every remote call goes through a retry helper that backs off exponentially on HTTP 429.

The model has one module per concern:

| module | file | models |
|---|---|---|
| `Wrappers` | wrappers.dfy | `Option` / `Result` in place of `undefined` and thrown errors |
| `Text` | text.dfy | the JavaScript string operations used: `startsWith`, `includes`, `split`/`join` on one character, `pop` of a split, ASCII `toLowerCase`, `trim`, decimal rendering |
| `OrderedMap` | ordered_map.dfy | a plain JavaScript object as an insertion-ordered map; assigning to a present key keeps its position |
| `Types` | types.dfy | field declarations, the response-format envelope, the OCR request body, JSON payloads, metadata, per-item errors |
| `JsNumbers` | js_numbers.dfy | `Number(s)` and `Number.parseInt(s)` on integer-valued text |
| `JsonText` | json_text.dfy | JavaScript truthiness and `${}` interpolation of JSON values |
| `Defaults` | defaults.dfy | `DEFAULT_CUSTOM_FIELDS`, `DEFAULT_BBOX_SCHEMA`, the endpoints, `LIMITS` |
| `DocumentTemplates` | templates.dfy | the six preset templates and `getDocumentTemplate` |
| `SchemaUtils` | schema_utils.dfy | `buildCustomFieldsFromCollection`, `buildJsonSchema` (titles, descriptions, items, the `required` list), `parsePages` |
| `Mime` | mime.dfy | the attachment checks: presence, size, MIME correction, supported-format test, minimum length |
| `Retry` | retry.dfy | `makeRequestWithRetry`, as a recursive reference and as the loop the node writes |
| `MistralOcrNode` | node.dfy | the OCR body and annotations, the per-item pipeline, error messages and `execute`'s item loop |

Nothing is I/O in the model. Each remote endpoint is a function from the attempt number to what that attempt returns. The random part of each back-off delay is a function from the attempt number to a real. The clock reading `processedAt` is a field of the item. The outcome of `JSON.parse` on an advanced-mode schema is a field of the item: the parsed declarations, or the parser's error message.

### Behaviour of the code worth knowing

The model follows the code in each of these points, some of which a reader might expect to work otherwise:

- **Expiry hours are not clamped.** The expiry sent is `options.expiryHours || 24`. Only a missing or zero value falls back to 24; nothing is clamped to 1–168 (`MistralOcrNode.Expiry`).
- **The format check is a prefix test.** It accepts any type that begins with `application`, `image` or `text`, with no slash required after the prefix (`Mime.AcceptedIffPrefix`). It runs after the size check and before the data-length check (`Mime.ValidateBinary`).
- **`required` is opt-in, one policy throughout.**
  - A field is required only when the first collection entry resolving to its name has `required === true` (`Array.prototype.find`). This is not the last complete entry, which is the one whose declaration wins.
  - The collection is passed only for the custom template in template mode. Preset templates, advanced mode and bbox formats therefore never require anything (`MistralOcrNode.PresetTemplateRequiresNothing`, `MistralOcrNode.AdvancedModeRequiresNothing`).
- **JSON errors come late.** An unparsable advanced-mode schema is reported after the upload and the signed-URL calls, not before any call. The item spends both calls and then fails with the parser's message (`MistralOcrNode.SchemaErrorAfterSign`, from `MistralOcrNode.BodyErrorStopsItem`).
- **`customFieldsJson` is not read.** The node reads the `customFields` collection, whose default is `{ field: [] }`.
- **Template names from `Object.prototype`.** `getDocumentTemplate` returns `DOCUMENT_TEMPLATES[name] || {}`. A name such as `constructor` reaches an inherited member with no own enumerable keys, so the node treats it exactly like an unknown name: no document format. `DocumentTemplates.GetDocumentTemplate` returns the empty map for every unknown name.

## Model

| member | source | states |
|---|---|---|
| OrderedMap.Put | nodes/MistralOcr/utils/schemaUtils.ts:63-66 | assigning `schema[name]` stores the value under the key; a present key keeps its position and a new key is appended |
| OrderedMap.GetPutOther | nodes/MistralOcr/utils/schemaUtils.ts:63-66 | assigning one key leaves the lookup of every other key unchanged |
| OrderedMap.GetSomeIffKey | nodes/MistralOcr/utils/schemaUtils.ts:90 | a lookup finds a value exactly for the keys `Object.entries` lists |
| OrderedMap.GetAt | nodes/MistralOcr/utils/schemaUtils.ts:90 | the key stored at a position looks up the value stored there |
| Text.Split | nodes/MistralOcr/utils/schemaUtils.ts:146 | `split` on one character never yields an empty list, yields the whole string when the separator is absent, and no part contains the separator |
| Text.JoinSplit | nodes/MistralOcr/utils/schemaUtils.ts:93-96 | joining the parts of a split with the same separator gives back the string |
| Text.SplitJoin | nodes/MistralOcr/utils/schemaUtils.ts:93-96 | splitting a join of separator-free parts gives back the parts |
| Text.SplitPrefix | nodes/MistralOcr/utils/schemaUtils.ts:146 | a separator-free prefix followed by the separator is the first part of the split |
| Text.LastPart | nodes/MistralOcr/MistralOcr.node.ts:160 | `split(sep).pop()` holds no separator, and is the whole string when there is none |
| Text.LastPartAfter | nodes/MistralOcr/MistralOcr.node.ts:160 | `pop` of the split is the text after the last separator |
| Text.ToLower | nodes/MistralOcr/MistralOcr.node.ts:160 | no upper-case ASCII letter is left; every other character is kept; each upper-case letter becomes the lower-case letter that upper-cases back to it |
| Text.ToLowerIdempotent | nodes/MistralOcr/MistralOcr.node.ts:160 | lower-casing a lower-cased text changes nothing |
| Text.ToLowerConcat | nodes/MistralOcr/MistralOcr.node.ts:160 | lower-casing distributes over concatenation |
| Text.TrimStart | nodes/MistralOcr/utils/schemaUtils.ts:153 | the result is a suffix that starts with a non-space, and everything removed is white space |
| Text.TrimEnd | nodes/MistralOcr/utils/schemaUtils.ts:153 | the result is a prefix that ends with a non-space, and everything removed is white space |
| Text.NatToString | nodes/MistralOcr/MistralOcr.node.ts:130 | the decimal rendering is non-empty, all digits, and has a leading zero only for 0 |
| JsNumbers.DigitPrefixLen | nodes/MistralOcr/utils/schemaUtils.ts:153 | `parseInt` reads the longest run of digits: the prefix is all digits and the next character is not one |
| JsNumbers.ParseInt | nodes/MistralOcr/utils/schemaUtils.ts:153 | `Number.parseInt` yields NaN exactly when, after white space, an optional sign and a `0x` prefix, no digit of the radix follows; otherwise the signed value of the longest digit run |
| JsNumbers.ParseIntNeedsDigit | nodes/MistralOcr/utils/schemaUtils.ts:153 | `parseInt` gives a number only for text that contains a digit |
| JsNumbers.ParseIntIgnoresTail | nodes/MistralOcr/utils/schemaUtils.ts:153 | text after the digit run that starts with a non-digit does not change what `parseInt` reads |
| JsNumbers.ParseIntNatToString | nodes/MistralOcr/utils/schemaUtils.ts:153 | `parseInt` of the decimal text of a natural number gives the number back |
| JsNumbers.NumberNatToString | nodes/MistralOcr/utils/schemaUtils.ts:146 | `Number` of the decimal text of a natural number gives the number back |
| JsNumbers.DigitsOfNat | nodes/MistralOcr/utils/schemaUtils.ts:146 | the decimal rendering is all digits and denotes the number |
| JsonText.IntText | nodes/MistralOcr/constants/defaults.ts:32 | `${n}` of an integer starts with a minus sign exactly when it is negative, and `Number` reads it back as the same integer |
| JsonText.TemplateText | nodes/MistralOcr/constants/defaults.ts:32 | `${v}` of a string is the string itself; of a number it is non-empty and starts with `-` exactly when the number is negative |
| JsonText.NumberTextRoundTrip | nodes/MistralOcr/constants/defaults.ts:32 | `${v}` of a number reads back with `Number` as that same number |
| JsonText.ElementTexts | nodes/MistralOcr/constants/defaults.ts:32 | an interpolated array renders each element as that element's own interpolation, and a `null` element as the empty string |
| Defaults.GetUrl | nodes/MistralOcr/constants/defaults.ts:31-32 | the signed-URL endpoint lies under the upload endpoint, ends in `/url`, and the file id can be read back out of it |
| Defaults.GetUrlInjective | nodes/MistralOcr/constants/defaults.ts:32 | distinct file ids give distinct signed-URL endpoints |
| Defaults.LimitsConsistent | nodes/MistralOcr/constants/defaults.ts:36-43 | the default expiry lies in the declared range; the size limit is 50 MiB; the page limit is 8 |
| Defaults.DefaultBboxShape | nodes/MistralOcr/constants/defaults.ts:14-28 | the default bbox schema has the keys element_type, description and key_data, and only key_data is an array, with string items |
| Defaults.DefaultCustomFieldsShape | nodes/MistralOcr/constants/defaults.ts:3-12 | the default custom fields are total_amount (number) and document_date (string), neither an array |
| DocumentTemplates.ParseTemplateId | nodes/MistralOcr/types/index.ts:50-57 | a string names a template exactly when it is that template's name |
| DocumentTemplates.ParseName | nodes/MistralOcr/types/index.ts:50-57 | template names are distinct: each name parses back to its template |
| DocumentTemplates.Template | nodes/MistralOcr/templates/documentTemplates.ts:3-203 | only the custom entry of the table is empty |
| DocumentTemplates.TemplateWellFormed | nodes/MistralOcr/templates/documentTemplates.ts:3-203 | every preset field has a non-empty `[a-z0-9_]` key and a description, a type among string/number/array, and string items exactly on arrays |
| DocumentTemplates.GetDocumentTemplate | nodes/MistralOcr/templates/documentTemplates.ts:208-210 | a known name gives its preset, any other string the empty map, and the result is always well formed |
| DocumentTemplates.FieldCounts | nodes/MistralOcr/templates/documentTemplates.ts:3-203 | the presets hold 0, 10, 6, 8, 6, 7 and 7 fields |
| DocumentTemplates.NoBooleanFields | nodes/MistralOcr/templates/documentTemplates.ts:3-203 | no preset declares a boolean field |
| SchemaUtils.Dedup | nodes/MistralOcr/utils/schemaUtils.ts:57-74 | the result holds exactly the input's elements, each once |
| SchemaUtils.DedupKeepsFirstOrder | nodes/MistralOcr/utils/schemaUtils.ts:57-74 | the keys are a subsequence of the assignments, ordered by where each name is first assigned |
| SchemaUtils.Collect | nodes/MistralOcr/utils/schemaUtils.ts:57-74 | the collected keys are the names of the complete entries, in first-assignment order, without repeats |
| SchemaUtils.CollectGet | nodes/MistralOcr/utils/schemaUtils.ts:57-74 | the value under a key is the declaration of the last complete entry resolving to it |
| SchemaUtils.CollectGetAll | nodes/MistralOcr/utils/schemaUtils.ts:57-74 | every key's value is its last complete declaration |
| SchemaUtils.BuildCustomFieldsFromCollection | nodes/MistralOcr/utils/schemaUtils.ts:53-77 | a missing or non-array `field` gives `{}`; otherwise keys in first-assignment order, each holding its last complete declaration |
| SchemaUtils.AssignedNamesSpec | nodes/MistralOcr/utils/schemaUtils.ts:60-62 | a key is assigned exactly when some entry with a name, a type and a description resolves to it, through `customFieldName` behind the `__custom__` sentinel |
| SchemaUtils.LastWriteWins | nodes/MistralOcr/utils/schemaUtils.ts:62-66 | a complete entry that no later complete entry overrides is what its key holds |
| SchemaUtils.LastSpecItems | nodes/MistralOcr/utils/schemaUtils.ts:64-71 | a collected array declaration carries string items, and no other declaration carries items |
| SchemaUtils.CollectionItemsFollowType | nodes/MistralOcr/utils/schemaUtils.ts:64-71 | every field the builder returns has items exactly when it is an array |
| SchemaUtils.FindByName | nodes/MistralOcr/utils/schemaUtils.ts:110-114 | `find` returns the first entry resolving to the key, complete or not, and nothing when none does |
| SchemaUtils.RequiredKeys | nodes/MistralOcr/utils/schemaUtils.ts:108-119 | a key is required exactly when its `find` entry has `required === true`; the list keeps key order and has no repeats; with no collection it is empty |
| SchemaUtils.JoinCapitalized | nodes/MistralOcr/utils/schemaUtils.ts:93-96 | capitalising each part and joining upper-cases exactly the first character of each word of the join |
| SchemaUtils.TitleCapitalizesWords | nodes/MistralOcr/utils/schemaUtils.ts:93-96 | a title upper-cases the first character of every `_`-separated word and keeps every other character |
| SchemaUtils.TitleKeepsShape | nodes/MistralOcr/utils/schemaUtils.ts:93-96 | a title has the key's length and the key's `_` positions |
| SchemaUtils.TitleIdempotent | nodes/MistralOcr/utils/schemaUtils.ts:93-96 | titling a title changes nothing |
| SchemaUtils.TitleOfUnique | nodes/MistralOcr/utils/schemaUtils.ts:93-96 | the title of a key is determined by the key |
| SchemaUtils.TitleOfTotalAmount | nodes/MistralOcr/utils/schemaUtils.ts:93-96 | the only title of `total_amount` is `Total_Amount` |
| SchemaUtils.TitleExample | nodes/MistralOcr/utils/schemaUtils.ts:93-96 | `total_amount` is titled `Total_Amount` |
| SchemaUtils.BuildProperties | nodes/MistralOcr/utils/schemaUtils.ts:90-107 | one property per field in key order, with the field's type, its title, the description exactly when non-empty, and items exactly for an array that has them |
| SchemaUtils.BuildJsonSchema | nodes/MistralOcr/utils/schemaUtils.ts:82-136 | the envelope is a strict `json_schema` named by the lower-cased schema name, titled by the name, with no additional properties, one described property per field, and the opt-in `required` list |
| SchemaUtils.BuildJsonSchemaExample | nodes/MistralOcr/utils/schemaUtils.ts:90-101 | the field `foo: {string, "d"}` under `Doc` becomes the property `Foo` with its description, in a format named `doc` |
| SchemaUtils.RangeList | nodes/MistralOcr/utils/schemaUtils.ts:147 | `Array.from` lists `start` to `end` inclusive, and nothing for an inverted range |
| SchemaUtils.KeepParsed | nodes/MistralOcr/utils/schemaUtils.ts:151-154 | the comma branch yields at most one number per token |
| SchemaUtils.ParsePages | nodes/MistralOcr/utils/schemaUtils.ts:141-155 | "" gives []; text with `-` gives the inclusive range of its first two `Number` values, or [] when either is NaN; otherwise at most one number per comma token |
| SchemaUtils.KeepParsedConcat | nodes/MistralOcr/utils/schemaUtils.ts:151-154 | the comma branch handles tokens one by one: parsing a concatenation concatenates the results, so order and duplicates are kept |
| SchemaUtils.KeepParsedSound | nodes/MistralOcr/utils/schemaUtils.ts:151-154 | every number in the result is the value of some token |
| SchemaUtils.KeepParsedComplete | nodes/MistralOcr/utils/schemaUtils.ts:151-154 | no token with a leading integer is dropped |
| SchemaUtils.ParsePagesDefault | nodes/MistralOcr/MistralOcr.node.ts:351 | the default selection "0-7" asks for pages 0 to 7 |
| Mime.FileNameOrDefault | nodes/MistralOcr/MistralOcr.node.ts:142 | the attachment's own name when it has one, else `document` |
| Mime.Extension | nodes/MistralOcr/MistralOcr.node.ts:160 | the extension holds no dot |
| Mime.ExtensionAfterDot | nodes/MistralOcr/MistralOcr.node.ts:160 | the extension is the lower-cased text after the last dot |
| Mime.MappedMimeType | nodes/MistralOcr/MistralOcr.node.ts:161-177 | the table maps exactly its fifteen extensions, each to an `application` or `image` type |
| Mime.CorrectMimeType | nodes/MistralOcr/MistralOcr.node.ts:156-182 | a missing type becomes `application/pdf`; `text/plain` becomes the mapped type of a known extension; every other type is kept |
| Mime.MajorTypeAt | nodes/MistralOcr/MistralOcr.node.ts:185-206 | each supported entry's major type is the text before its slash, one of application, image or text |
| Mime.MajorOf | nodes/MistralOcr/MistralOcr.node.ts:206 | `split('/')[0]` of `major/minor` is `major`, and the type starts with it |
| Mime.AcceptedIffPrefix | nodes/MistralOcr/MistralOcr.node.ts:204-208 | the format check accepts exactly the types beginning with `application`, `image` or `text` |
| Mime.AcceptedHasPrefix | nodes/MistralOcr/MistralOcr.node.ts:204-208 | an accepted type begins with one of the three major types |
| Mime.PrefixAccepted | nodes/MistralOcr/MistralOcr.node.ts:204-208 | a type beginning with a supported entry's major type is accepted |
| Mime.MappedTypesAccepted | nodes/MistralOcr/MistralOcr.node.ts:161-208 | every type the extension table produces passes the format check |
| Mime.CorrectMimeTypeIdempotent | nodes/MistralOcr/MistralOcr.node.ts:156-182 | correcting a corrected type changes nothing |
| Mime.CorrectionKeepsAccepted | nodes/MistralOcr/MistralOcr.node.ts:156-208 | the corrected type is accepted exactly when the declared type is missing or accepted |
| Mime.LookupAsWritten | nodes/MistralOcr/MistralOcr.node.ts:180 | the plain-object lookup finds a MIME string exactly for the table's keys and an inherited member exactly for `constructor` and `__proto__` |
| Mime.CorrectMimeTypeAsWritten | nodes/MistralOcr/MistralOcr.node.ts:156-208 | as written, a `text/plain` file whose extension names an inherited member fails with the `startsWith` TypeError, and nothing else does |
| Mime.AsWrittenAgrees | nodes/MistralOcr/MistralOcr.node.ts:156-182 | outside the two inherited names the code as written and the corrected correction agree |
| Mime.InheritedExtensionThrows | nodes/MistralOcr/MistralOcr.node.ts:180-208 | a `text/plain` file with an inherited-name extension throws as written, where the corrected model keeps and accepts `text/plain` |
| Mime.InheritedNotMapped | nodes/MistralOcr/MistralOcr.node.ts:161-177 | `constructor` and `__proto__` are not own entries of the table |
| Mime.ConstructorExtensionThrows | nodes/MistralOcr/MistralOcr.node.ts:159-208 | a `text/plain` file named `scan.constructor` throws as written and is accepted by the corrected model |
| Mime.RoundedMegabytes | nodes/MistralOcr/MistralOcr.node.ts:130 | `Math.round(bytes / 1024 / 1024)` is the megabyte count nearest to the size, halves rounded up |
| Mime.ValidateBinary | nodes/MistralOcr/MistralOcr.node.ts:114-241 | missing attachment first, then size over 50 MiB, then an unsupported corrected type (reported with the corrected and the declared type), then fewer than 10 characters (reported with the length); success exactly when every check passes, with the defaulted name and the corrected type |
| Mime.MissingTypeIsPdf | nodes/MistralOcr/MistralOcr.node.ts:156 | an attachment without a type is uploaded as `application/pdf` and never rejected for its format |
| Retry.RetryFrom | nodes/MistralOcr/MistralOcr.node.ts:61-106 | at most `maxRetries + 1` attempts; every attempt but the last was a 429 and was followed by its back-off delay; success exactly when the last attempt answered, with its payload; the own rate-limit error exactly when all retries were used on 429s; any other error is the last attempt's, passed on |
| Retry.MakeRequestWithRetry | nodes/MistralOcr/MistralOcr.node.ts:61-106 | the `for` loop with `try`/`catch` makes the same attempts, waits and result as the reference |
| Retry.FirstAttemptSucceeds | nodes/MistralOcr/MistralOcr.node.ts:70-74 | a first attempt that answers is returned at once, without waiting |
| Retry.OtherErrorsNotRetried | nodes/MistralOcr/MistralOcr.node.ts:79-101 | an error that is not a 429 is rethrown after one attempt |
| Retry.PersistentRateLimit | nodes/MistralOcr/MistralOcr.node.ts:79-97 | a provider that keeps answering 429 is tried `maxRetries + 1` times and the helper then raises its own rate-limit error |
| Retry.DependsOnlyOnAttemptsMade | nodes/MistralOcr/MistralOcr.node.ts:68-103 | two providers that agree on the attempts made give the same run |
| Retry.Pow2Grows | nodes/MistralOcr/MistralOcr.node.ts:82 | `2 ** attempt` grows strictly with the attempt |
| Retry.DelaysIncrease | nodes/MistralOcr/MistralOcr.node.ts:82 | with a base of at least one second and jitter below one second, each wait is longer than the one before |
| Retry.DefaultSchedule | nodes/MistralOcr/MistralOcr.node.ts:63-82 | with the defaults, a persistent 429 costs four attempts and waits of 1, 2 and 4 seconds plus jitter |
| MistralOcrNode.Expiry | nodes/MistralOcr/MistralOcr.node.ts:272 | the expiry is the option when it is non-zero, else 24, and never 0 |
| MistralOcrNode.DocumentSchema | nodes/MistralOcr/MistralOcr.node.ts:308-341 | fails exactly for an unparsable advanced-mode schema, with the parser's message; advanced mode uses the parsed fields; the custom template uses the collection's keys in first-assignment order; any other name gives its well-formed preset, or the empty map for an unknown name |
| MistralOcrNode.RequiredConfig | nodes/MistralOcr/MistralOcr.node.ts:314-348 | the collection is passed exactly for the custom template in template mode, and nothing otherwise |
| MistralOcrNode.BboxSchema | nodes/MistralOcr/MistralOcr.node.ts:366-383 | fails exactly for an unparsable advanced-mode schema, with the parser's message; advanced mode uses the parsed fields, template mode the default bbox schema |
| MistralOcrNode.DocumentAnnotation | nodes/MistralOcr/MistralOcr.node.ts:308-363 | succeeds exactly when the schema is available and a non-empty schema selects at most 8 pages; an unparsable advanced schema fails with the parser's message; the format is `buildJsonSchema` of the schema under `DocumentAnnotation` with the required-list source, present exactly when the schema has fields; pages exactly when the selection is non-empty |
| MistralOcrNode.BboxAnnotation | nodes/MistralOcr/MistralOcr.node.ts:366-386 | fails exactly for an unparsable advanced bbox schema when bbox annotations are asked for; otherwise a format exactly when asked for, which is `buildJsonSchema` of the bbox schema under `BBoxAnnotation` with nothing required |
| MistralOcrNode.BuildOcrBody | nodes/MistralOcr/MistralOcr.node.ts:288-387 | model, signed URL and image flag always; plain OCR never fails and adds nothing; for annotations it succeeds exactly when both annotation parts do, carries their formats and pages, and reports errors in the order document JSON, page count, bbox JSON |
| MistralOcrNode.Annotations | nodes/MistralOcr/MistralOcr.node.ts:298-387 | for plain OCR no annotation parts; for annotations, success exactly when both the document and the bbox part succeed, the document error first otherwise, and only the three schema errors |
| MistralOcrNode.AssembleBody | nodes/MistralOcr/MistralOcr.node.ts:288-295 | the body is built exactly when the annotation parts are, with the model, the signed URL, the image flag and the parts' formats and pages; otherwise the parts' error |
| MistralOcrNode.PresetTemplateRequiresNothing | nodes/MistralOcr/MistralOcr.node.ts:337-346 | a preset template gives a document format with exactly its fields and none required |
| MistralOcrNode.CustomTemplateRequiredFromCollection | nodes/MistralOcr/MistralOcr.node.ts:330-346 | with the custom template a field is required exactly when the collection marks it |
| MistralOcrNode.AdvancedModeRequiresNothing | nodes/MistralOcr/MistralOcr.node.ts:313-346 | advanced mode never marks a field required |
| MistralOcrNode.EmptySchemaSkipsPages | nodes/MistralOcr/MistralOcr.node.ts:342-363 | an empty field map adds neither a document format nor pages, so the page count cannot fail the item |
| MistralOcrNode.InvoiceWithBboxBody | nodes/MistralOcr/MistralOcr.node.ts:298-387 | the invoice preset with bbox and the default pages gives ten unrequired document fields, the three default bbox fields and pages 0 to 7 |
| MistralOcrNode.CallEndpoint | nodes/MistralOcr/MistralOcr.node.ts:252-259 | each remote call makes between one and four attempts |
| MistralOcrNode.ItemMetadata | nodes/MistralOcr/MistralOcr.node.ts:401-415 | the metadata records the operation, the uploaded file id, the signed URL and the clock reading, and the annotation settings exactly for `ocrWithAnnotations` |
| MistralOcrNode.MetadataReadBack | nodes/MistralOcr/MistralOcr.node.ts:401-415 | every metadata entry reads back by its key, and the annotation keys are present exactly for annotation metadata |
| MistralOcrNode.MetadataJson | nodes/MistralOcr/MistralOcr.node.ts:401-415 | the metadata object holds `operation`, `uploadedFileId`, `signedUrl` and `processedAt` in that order, followed by `documentTemplate`, `includeBboxAnnotations` and `advancedMode` exactly for annotation metadata |
| MistralOcrNode.SubmitOcr | nodes/MistralOcr/MistralOcr.node.ts:288-422 | the OCR call is made exactly when the request body could be built, and carries that body; success means the OCR call answered and the output is its payload with the item's metadata set under `_metadata`; a failure after the call is that call's error |
| MistralOcrNode.RequestSignedUrl | nodes/MistralOcr/MistralOcr.node.ts:267-285 | the first call asks for the signed URL of the given file id with the item's expiry; the OCR call follows exactly when the answer has a truthy `url` and the body could be built, and carries the body for that url; otherwise the item fails with the sign error, `SignedUrlFailed` or the body error, in that order |
| MistralOcrNode.UploadFile | nodes/MistralOcr/MistralOcr.node.ts:252-265 | the first call uploads the checked attachment; a second call happens exactly when the upload answered with a truthy id, and targets that id; success means three calls and the merged OCR answer |
| MistralOcrNode.UploadStops | nodes/MistralOcr/MistralOcr.node.ts:252-265 | an upload that fails, or answers without a truthy id, ends the item after one call with the upload error or `UploadFailed` |
| MistralOcrNode.UploadContinues | nodes/MistralOcr/MistralOcr.node.ts:261-285 | after an upload with a truthy id the item continues as the signed-URL step for that id |
| MistralOcrNode.ProcessItem | nodes/MistralOcr/MistralOcr.node.ts:110-422 | no call is made exactly when the attachment fails validation, and the item then fails with that error; calls are upload, sign, OCR in that order, each with one to four attempts; success makes all three and outputs the OCR answer with `_metadata` set; a failure after a call is never a validation error |
| MistralOcrNode.OutputKeepsOcrResponse | nodes/MistralOcr/MistralOcr.node.ts:417-422 | a successful output is the OCR response with `_metadata` set: every other key keeps its value and position |
| MistralOcrNode.SignUsesUploadedId | nodes/MistralOcr/MistralOcr.node.ts:261-275 | the signed-URL request targets the id the upload returned, with the item's expiry |
| MistralOcrNode.FailuresAfterUpload | nodes/MistralOcr/MistralOcr.node.ts:390-398 | an item that made all three calls and failed failed on the OCR call, with that call's error |
| MistralOcrNode.MissingIdStopsItem | nodes/MistralOcr/MistralOcr.node.ts:261-265 | an upload answer without a usable id fails the item after one call |
| MistralOcrNode.ItemOutcome | nodes/MistralOcr/MistralOcr.node.ts:110-422 | an item sends the OCR request exactly when its attachment passes the checks, the upload gives a truthy id, the sign call a truthy url and the body can be built, and that request is `BuildOcrBody` for the url; it succeeds exactly when the OCR call then answers, and outputs that answer with the item's metadata under `_metadata` |
| MistralOcrNode.BodyErrorStopsItem | nodes/MistralOcr/MistralOcr.node.ts:288-387 | after the upload and sign calls answered, an error building the body fails the item with that error, after two calls |
| MistralOcrNode.SchemaErrorAfterSign | nodes/MistralOcr/MistralOcr.node.ts:252-327 | an unparsable advanced-mode document schema fails the item only after the upload and sign calls |
| MistralOcrNode.ProviderMessageKept | nodes/MistralOcr/MistralOcr.node.ts:88-101 | an error the provider raised keeps the provider's message, and exhausted 429 retries give the fixed rate-limit text |
| MistralOcrNode.SchemaMessageKept | nodes/MistralOcr/MistralOcr.node.ts:320-378 | the message of an unparsable document or bbox schema ends with the JSON parser's message |
| MistralOcrNode.PageLimitMessage | nodes/MistralOcr/MistralOcr.node.ts:353-358 | the page-limit error quotes the limit of 8 pages |
| MistralOcrNode.ItemOutput | nodes/MistralOcr/MistralOcr.node.ts:422-430 | a success outputs the response unpaired; a failure outputs `{ error: message }` paired with the item |
| MistralOcrNode.ExecuteFrom | nodes/MistralOcr/MistralOcr.node.ts:108-434 | with continue-on-fail one output per item in order; without it, completion exactly when every item succeeds, else abort at the first failure, with no later item processed |
| MistralOcrNode.Execute | nodes/MistralOcr/MistralOcr.node.ts:56-437 | `execute` yields every item's output in input order, or aborts at the first failing item with its error when continue-on-fail is off |
| MistralOcrNode.ExecuteStopsAtFirstFailure | nodes/MistralOcr/MistralOcr.node.ts:423-432 | without continue-on-fail the run aborts at the first failing item with its error; the items before it succeeded and no later item made a call |
| MistralOcrNode.ExecuteLoop | nodes/MistralOcr/MistralOcr.node.ts:108-434 | the item loop with its `try`/`catch` gives the same result as the reference |
| MistralOcrNode.AbortsFrom | nodes/MistralOcr/MistralOcr.node.ts:423-432 | without continue-on-fail the first failing item ends the execution with its error |
| MistralOcrNode.CompletesFrom | nodes/MistralOcr/MistralOcr.node.ts:108-434 | when no item aborts, the output is one entry per item in order |

## Left out

- Logging: the `console.log` calls only print and do not influence the result.
- Jitter: the distribution of `Math.random()` is left out. The random part of each delay is a parameter; `Retry.DelaysIncrease` assumes it lies in [0, 1000).
- `setTimeout`: the sleep itself is left out; the delays are recorded instead.
- Transport details: the multipart body (`FormData`), headers, credentials and HTTP transport are left out; each endpoint is an oracle.
- Decoded size: `Buffer.byteLength(data, 'base64')` is taken as a field of the attachment.
- Filesystem-backed attachments: for data starting with `filesystem-` the node awaits `getBinaryDataBuffer` (MistralOcr.node.ts:145-153). That fetch comes after the size check and before the MIME check, and it can throw, failing the item before any remote call. The model does not carry the bytes and has no such failure: its attachment checks fail only with the four validation errors.
- Absent strings: an absent `mimeType` or `fileName` is the empty string. JavaScript treats both as falsy in the same way.
- JSON parsing: `JSON.parse` itself is an oracle. An advanced-mode schema that parses to something other than an object of field declarations is not modelled.
- Case mapping: `toLowerCase` and `toUpperCase` are modelled on ASCII letters only; Unicode case mapping is left out.
- Number conversion: `Number` and `parseInt` are modelled on integer-valued text with unbounded integers. Fractions, exponents, `Infinity` and numbers of 10^21 or more are left out, because page numbers and file ids are integers. JavaScript numbers are doubles, exact only for integers below 2^53 in magnitude; above that `Number`, `parseInt` and `${n}` round, so the read-back promises of `JsonText.IntText`, `JsonText.NumberTextRoundTrip`, `JsNumbers.ParseIntNatToString` and `JsNumbers.NumberNatToString` hold in JavaScript only below 2^53.
- Huge ranges: the `RangeError` of `Array.from` for a range longer than 2^32 - 1 is left out.
- Special object keys: integer-like field names (which `Object.keys` lists first) and a field named `__proto__` (which sets the prototype) are left out. Field maps keep insertion order for every key.
- SchemaUtils.BuildCustomFieldsFromCollection: the `try`/`catch` around it in `execute` is not modelled. Collection entries are well-typed records, so nothing in the builder can throw.
- Unused helpers: `getQuickFieldDefinitions` and `parseCustomFieldsJson` in schemaUtils.ts are not called by `execute`.
- Unused limits: `MAX_TOTAL_PAGES`, `MIN_EXPIRY_HOURS` and `MAX_EXPIRY_HOURS` are declared but never read by the node; they appear only in `Defaults.LimitsConsistent`.
- UI and credentials: nodeProperties.ts (the editor UI) and MistralApi.credentials.ts are not part of this model.
- SchemaUtils.ParsePages: a concrete comma-list example such as "0, 1,x,3" is not stated as a lemma. The comma branch is covered for all inputs by `SchemaUtils.KeepParsedConcat`, `SchemaUtils.KeepParsedSound` and `SchemaUtils.KeepParsedComplete`.
- Mime.ValidateBinary: uses the corrected MIME lookup (see Findings), not the code as written. For a `text/plain` file whose extension is `constructor` or `__proto__` the node as written throws a TypeError in the format check, while the model keeps `text/plain` and accepts it; `Mime.CorrectMimeTypeAsWritten` models the code as written. The attachment itself is looked up as an own property of the item's binary map. In the node, `items[i].binary?.[binaryPropertyName]` (MistralOcr.node.ts:116) is a plain-object lookup, so a property name such as `constructor`, `toString`, `valueOf` or `__proto__` with no such attachment reaches a truthy `Object.prototype` member. The missing-attachment check then passes and `Buffer.byteLength` (MistralOcr.node.ts:127) throws a TypeError before any remote call; the model reports `NoBinaryData` for such a name instead.
- Non-Error throws: `error instanceof Error ? … : 'Unknown error'` is left out; every error the model raises carries a message.

## Findings

| source | as written | input that shows it | evidently intended | confidence | as-written member | corrected member |
|---|---|---|---|---|---|---|
| nodes/MistralOcr/MistralOcr.node.ts:159-210 | `mimeTypeMappings[extension]` is a plain-object lookup, so the lower-cased extensions `constructor` and `__proto__` reach inherited `Object.prototype` members. Those are truthy, so one becomes `mimeType`, and `mimeType.startsWith` in the format check throws a TypeError | a `text/plain` attachment named `scan.constructor` | only the table's own entries repair the type: the file stays `text/plain` and passes the format check | high; not executed | Mime.CorrectMimeTypeAsWritten, Mime.ConstructorExtensionThrows | Mime.CorrectMimeType, Mime.InheritedExtensionThrows |
