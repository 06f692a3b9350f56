/** The `DOCUMENT_TEMPLATES` table: a closed, immutable map from template id to
    field declarations, and `getDocumentTemplate`, its total lookup by name. */
module DocumentTemplates {
  import opened Wrappers
  import opened OrderedMap
  import opened Types

  /** `DocumentTemplateType` */
  datatype TemplateId = Custom | Invoice | Letter | Contract | Receipt | IdDocument | ResearchPaper

  /** The string id a template is selected by. */
  function Name(id: TemplateId): string {
    match id
    case Custom => "custom"
    case Invoice => "invoice"
    case Letter => "letter"
    case Contract => "contract"
    case Receipt => "receipt"
    case IdDocument => "id_document"
    case ResearchPaper => "research_paper"
  }

  /** The template a string id names, if any. */
  function ParseTemplateId(s: string): (r: Option<TemplateId>)
    ensures r.Some? ==> Name(r.value) == s
    ensures r.None? ==> forall id :: Name(id) != s
  {
    if s == "custom" then Some(Custom)
    else if s == "invoice" then Some(Invoice)
    else if s == "letter" then Some(Letter)
    else if s == "contract" then Some(Contract)
    else if s == "receipt" then Some(Receipt)
    else if s == "id_document" then Some(IdDocument)
    else if s == "research_paper" then Some(ResearchPaper)
    else None
  }

  /** Template names are distinct, so the name of a template parses back to it. */
  lemma ParseName(id: TemplateId)
    ensures ParseTemplateId(Name(id)) == Some(id)
  {
  }

  predicate IsKeyChar(c: char) {
    'a' <= c <= 'z' || '0' <= c <= '9' || c == '_'
  }

  /** What every preset field satisfies: a non-empty key of lower-case letters, digits
      and `_`; a non-empty description; type string, number or array; and string
      items exactly when the type is array. */
  predicate WellFormedTemplateField(name: string, spec: FieldSpec) {
    && |name| > 0
    && (forall i :: 0 <= i < |name| ==> IsKeyChar(name[i]))
    && spec.description != ""
    && spec.jsonType in {"string", "number", "array"}
    && spec.items == (if spec.jsonType == "array" then Some(StringItems) else None)
  }

  predicate WellFormedTemplate(m: FieldMap) {
    forall i :: 0 <= i < |m| ==> WellFormedTemplateField(m[i].0, m[i].1)
  }

  /** The `invoice` preset. */
  const InvoiceFields: FieldMap := FromEntries([
    ("total_amount", FieldSpec("number", "Total amount including all taxes and fees", None)),
    ("net_amount", FieldSpec("number", "Net amount before taxes", None)),
    ("tax_amount", FieldSpec("number", "Tax amount", None)),
    ("customer_number", FieldSpec("string", "Customer or client identification number", None)),
    ("invoice_number", FieldSpec("string", "Invoice number or reference", None)),
    ("invoice_date", FieldSpec("string", "Invoice date", None)),
    ("due_date", FieldSpec("string", "Payment due date", None)),
    ("vendor_name", FieldSpec("string", "Name of the company or vendor issuing the invoice", None)),
    ("customer_name", FieldSpec("string", "Name of the customer or client", None)),
    ("payment_method", FieldSpec("string", "Accepted payment methods", None))
  ])

  /** The `letter` preset. */
  const LetterFields: FieldMap := FromEntries([
    ("sender", FieldSpec("string", "Name and address of the sender", None)),
    ("recipient", FieldSpec("string", "Name and address of the recipient", None)),
    ("document_date", FieldSpec("string", "Date when the letter was written", None)),
    ("reference", FieldSpec("string", "File number, case reference or subject line", None)),
    ("subject", FieldSpec("string", "Subject or topic of the letter", None)),
    ("letter_type", FieldSpec("string", "Type of correspondence (official, personal, business, etc.)", None))
  ])

  /** The `contract` preset. */
  const ContractFields: FieldMap := FromEntries([
    ("contract_title", FieldSpec("string", "Title or type of contract", None)),
    ("party_1", FieldSpec("string", "First contracting party (name and details)", None)),
    ("party_2", FieldSpec("string", "Second contracting party (name and details)", None)),
    ("contract_date", FieldSpec("string", "Date when the contract was signed", None)),
    ("start_date", FieldSpec("string", "Contract start date", None)),
    ("end_date", FieldSpec("string", "Contract end date", None)),
    ("contract_amount", FieldSpec("number", "Contract value or amount", None)),
    ("key_terms", FieldSpec("array", "Key terms and conditions", Some(StringItems)))
  ])

  /** The `receipt` preset. */
  const ReceiptFields: FieldMap := FromEntries([
    ("store_name", FieldSpec("string", "Name of the store or business", None)),
    ("total_amount", FieldSpec("number", "Total amount paid", None)),
    ("purchase_date", FieldSpec("string", "Date of purchase", None)),
    ("receipt_number", FieldSpec("string", "Receipt or transaction number", None)),
    ("payment_method", FieldSpec("string", "How the payment was made (cash, card, etc.)", None)),
    ("items", FieldSpec("array", "List of purchased items", Some(StringItems)))
  ])

  /** The `id_document` preset. */
  const IdDocumentFields: FieldMap := FromEntries([
    ("full_name", FieldSpec("string", "Full name as shown on the document", None)),
    ("birth_date", FieldSpec("string", "Date of birth", None)),
    ("id_number", FieldSpec("string", "ID number or passport number", None)),
    ("nationality", FieldSpec("string", "Nationality or citizenship", None)),
    ("issue_date", FieldSpec("string", "Date when the document was issued", None)),
    ("expiry_date", FieldSpec("string", "Document expiry date", None)),
    ("issuing_authority", FieldSpec("string", "Authority that issued the document", None))
  ])

  /** The `research_paper` preset. */
  const ResearchPaperFields: FieldMap := FromEntries([
    ("title", FieldSpec("string", "Title of the research paper", None)),
    ("authors", FieldSpec("array", "List of authors", Some(StringItems))),
    ("abstract", FieldSpec("string", "Abstract or summary of the paper", None)),
    ("keywords", FieldSpec("array", "Keywords or key topics", Some(StringItems))),
    ("publication_date", FieldSpec("string", "Publication date", None)),
    ("journal", FieldSpec("string", "Journal or conference name", None)),
    ("doi", FieldSpec("string", "DOI or other identifier", None))
  ])

  /** `DOCUMENT_TEMPLATES[id]`; only `custom` is empty. */
  function Template(id: TemplateId): (r: FieldMap)
    ensures |r| == 0 <==> id == Custom
  {
    match id
    case Custom => []
    case Invoice => InvoiceFields
    case Letter => LetterFields
    case Contract => ContractFields
    case Receipt => ReceiptFields
    case IdDocument => IdDocumentFields
    case ResearchPaper => ResearchPaperFields
  }

  /** Every field of every preset is well formed: keys of `[a-z0-9_]`, non-empty
      descriptions, types string/number/array, string items exactly on arrays. */
  lemma TemplateWellFormed(id: TemplateId)
    ensures WellFormedTemplate(Template(id))
  {
    match id
    case Custom =>
    case Invoice => InvoiceWellFormedFrom(0);
    case Letter => LetterWellFormedFrom(0);
    case Contract => ContractWellFormedFrom(0);
    case Receipt => ReceiptWellFormedFrom(0);
    case IdDocument => IdDocumentWellFormedFrom(0);
    case ResearchPaper => ResearchPaperWellFormedFrom(0);
  }

  lemma {:induction false} InvoiceWellFormedFrom(k: nat)
    requires k <= |InvoiceFields|
    ensures forall i :: k <= i < |InvoiceFields| ==> WellFormedTemplateField(InvoiceFields[i].0, InvoiceFields[i].1)
    decreases |InvoiceFields| - k
  {
    if k < |InvoiceFields| {
      InvoiceWellFormedFrom(k + 1);
      assert WellFormedTemplateField(InvoiceFields[k].0, InvoiceFields[k].1);
    }
  }

  lemma {:induction false} LetterWellFormedFrom(k: nat)
    requires k <= |LetterFields|
    ensures forall i :: k <= i < |LetterFields| ==> WellFormedTemplateField(LetterFields[i].0, LetterFields[i].1)
    decreases |LetterFields| - k
  {
    if k < |LetterFields| {
      LetterWellFormedFrom(k + 1);
      assert WellFormedTemplateField(LetterFields[k].0, LetterFields[k].1);
    }
  }

  lemma {:induction false} ContractWellFormedFrom(k: nat)
    requires k <= |ContractFields|
    ensures forall i :: k <= i < |ContractFields| ==> WellFormedTemplateField(ContractFields[i].0, ContractFields[i].1)
    decreases |ContractFields| - k
  {
    if k < |ContractFields| {
      ContractWellFormedFrom(k + 1);
      assert WellFormedTemplateField(ContractFields[k].0, ContractFields[k].1);
    }
  }

  lemma {:induction false} ReceiptWellFormedFrom(k: nat)
    requires k <= |ReceiptFields|
    ensures forall i :: k <= i < |ReceiptFields| ==> WellFormedTemplateField(ReceiptFields[i].0, ReceiptFields[i].1)
    decreases |ReceiptFields| - k
  {
    if k < |ReceiptFields| {
      ReceiptWellFormedFrom(k + 1);
      assert WellFormedTemplateField(ReceiptFields[k].0, ReceiptFields[k].1);
    }
  }

  lemma {:induction false} IdDocumentWellFormedFrom(k: nat)
    requires k <= |IdDocumentFields|
    ensures forall i :: k <= i < |IdDocumentFields| ==> WellFormedTemplateField(IdDocumentFields[i].0, IdDocumentFields[i].1)
    decreases |IdDocumentFields| - k
  {
    if k < |IdDocumentFields| {
      IdDocumentWellFormedFrom(k + 1);
      assert WellFormedTemplateField(IdDocumentFields[k].0, IdDocumentFields[k].1);
    }
  }

  lemma {:induction false} ResearchPaperWellFormedFrom(k: nat)
    requires k <= |ResearchPaperFields|
    ensures forall i :: k <= i < |ResearchPaperFields| ==> WellFormedTemplateField(ResearchPaperFields[i].0, ResearchPaperFields[i].1)
    decreases |ResearchPaperFields| - k
  {
    if k < |ResearchPaperFields| {
      ResearchPaperWellFormedFrom(k + 1);
      assert WellFormedTemplateField(ResearchPaperFields[k].0, ResearchPaperFields[k].1);
    }
  }

  /** `getDocumentTemplate(name)`: the preset a known id names, and the empty map for
      any other string; it never fails. */
  function GetDocumentTemplate(name: string): (r: FieldMap)
    ensures forall id :: Name(id) == name ==> r == Template(id)
    ensures (forall id :: Name(id) != name) ==> r == []
    ensures WellFormedTemplate(r)
  {
    match ParseTemplateId(name)
    case Some(id) => TemplateWellFormed(id); Template(id)
    case None => []
  }

  /** The presets' sizes. */
  lemma FieldCounts()
    ensures |Template(Custom)| == 0
    ensures |Template(Invoice)| == 10
    ensures |Template(Letter)| == 6
    ensures |Template(Contract)| == 8
    ensures |Template(Receipt)| == 6
    ensures |Template(IdDocument)| == 7
    ensures |Template(ResearchPaper)| == 7
  {
  }

  /** Presets declare no `boolean` fields, although the field type allows it. */
  lemma NoBooleanFields(id: TemplateId, i: nat)
    requires i < |Template(id)|
    ensures Template(id)[i].1.jsonType != "boolean"
  {
    TemplateWellFormed(id);
    assert WellFormedTemplateField(Template(id)[i].0, Template(id)[i].1);
  }
}
