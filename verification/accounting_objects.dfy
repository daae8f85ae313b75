/**
 The data model of the pipeline: loaded files, document categories and the
 extraction records handed to the export layer.
 */
module AccountingObjects {

  /** The file kinds the loader tells apart. `Unknown` is the variant the
      orchestration code relies on for unsupported extensions. */
  datatype FileType = Image | PDF | Unknown

  /** A loaded, supported file: an image carries its bytes as base64 text,
      a PDF carries the text extracted from its pages. */
  datatype FileObject =
    | ImageObject(filename: string, base64Data: string)
    | PdfObject(filename: string, textContent: string)
  {
    /** The `type` tag of the file object. */
    function Type(): (t: FileType)
      ensures t != FileType.Unknown
      ensures t == FileType.Image <==> ImageObject?
    {
      match this
      case ImageObject(_, _) => FileType.Image
      case PdfObject(_, _) => FileType.PDF
    }
  }

  /** What loading a path yields: a supported file, or only the name of an
      unsupported one. */
  datatype LoadedFile = Supported(file: FileObject) | UnknownObject(filename: string)
  {
    function Filename(): string {
      match this
      case Supported(f) => f.filename
      case UnknownObject(name) => name
    }
  }

  /** The document categories. */
  datatype DocType = Receipt | ServiceInvoice | OutsourcingInvoice | Unknown

  /** The string value of each category: the label the classifier is asked to answer with. */
  function Label(d: DocType): string {
    match d
    case Receipt => "領収書"
    case ServiceInvoice => "サービス請求書"
    case OutsourcingInvoice => "業務委託請求書"
    case Unknown => "不明"
  }

  /** The four labels are pairwise distinct, so a label names one category. */
  lemma LabelInjective(d1: DocType, d2: DocType)
    ensures Label(d1) == Label(d2) <==> d1 == d2
  {
  }

  /** An extraction record. The three extracted kinds map field names to the
      model's answers; the unknown kind carries only the file name. */
  datatype Info =
    | UnknownInfo(filename: string)
    | ReceiptInfo(fields: map<string, string>)
    | ServiceInvoiceInfo(fields: map<string, string>)
    | OutsourcingInvoiceInfo(fields: map<string, string>)

  /** The literal `type` tag of each record kind. */
  function TypeTag(info: Info): string {
    match info
    case UnknownInfo(_) => "Unknown"
    case ReceiptInfo(_) => "Receipt"
    case ServiceInvoiceInfo(_) => "ServiceInvoice"
    case OutsourcingInvoiceInfo(_) => "OutsourcingInvoice"
  }

  /** The record of an extractable category holding `fields`. */
  function Record(d: DocType, fields: map<string, string>): Info
    requires d != DocType.Unknown
  {
    match d
    case Receipt => ReceiptInfo(fields)
    case ServiceInvoice => ServiceInvoiceInfo(fields)
    case OutsourcingInvoice => OutsourcingInvoiceInfo(fields)
  }

  /** The declared fields of a service invoice record. */
  const ServiceInvoiceFields: set<string> :=
    {"company", "totalPrice", "publishedDate", "paymentDueDate", "invoiceNumber", "tax10", "tax8"}

  /** The declared fields of an outsourcing invoice record. */
  const OutsourcingInvoiceFields: set<string> :=
    {"company", "totalPrice", "publishedDate", "paymentDueDate", "invoiceNumber", "tax10", "withholdingTax"}

  /** The declared fields of a receipt record. */
  const ReceiptFields: set<string> :=
    {"company", "totalPrice", "publishedDate", "invoiceNumber", "tax10", "tax8"}

  /** How the three field sets relate: a receipt is a service invoice without a due
      date, and an outsourcing invoice swaps the 8% tax for the withholding tax. */
  lemma FieldSetRelations()
    ensures ReceiptFields == ServiceInvoiceFields - {"paymentDueDate"}
    ensures OutsourcingInvoiceFields == ServiceInvoiceFields - {"tax8"} + {"withholdingTax"}
    ensures "type" !in ServiceInvoiceFields + OutsourcingInvoiceFields + ReceiptFields
    ensures "undefined" !in ServiceInvoiceFields + OutsourcingInvoiceFields + ReceiptFields
  {
  }

  /** A record has exactly the fields its declared type lists, no more and no fewer. */
  predicate WellTyped(info: Info) {
    match info
    case UnknownInfo(_) => true
    case ReceiptInfo(f) => f.Keys == ReceiptFields
    case ServiceInvoiceInfo(f) => f.Keys == ServiceInvoiceFields
    case OutsourcingInvoiceInfo(f) => f.Keys == OutsourcingInvoiceFields
  }

  /** The record as the plain object the export layer sees: the `type` tag
      followed by the spread of the fields, so a field named `type` would win. */
  function ToObject(info: Info): (obj: map<string, string>)
    ensures "type" in obj
    ensures info.UnknownInfo? ==>
      obj.Keys == {"type", "filename"} && obj["type"] == "Unknown" && obj["filename"] == info.filename
    ensures !info.UnknownInfo? ==>
      && obj.Keys == {"type"} + info.fields.Keys
      && (forall k :: k in info.fields ==> obj[k] == info.fields[k])
      && ("type" !in info.fields ==> obj["type"] == TypeTag(info))
  {
    match info
    case UnknownInfo(name) => map["type" := "Unknown", "filename" := name]
    case _ => map["type" := TypeTag(info)] + info.fields
  }

  /** For a well-typed record the object's `type` is the record's tag and every
      other key is one of the declared fields. */
  lemma WellTypedObject(info: Info)
    requires WellTyped(info) && !info.UnknownInfo?
    ensures ToObject(info)["type"] == TypeTag(info)
    ensures ToObject(info).Keys - {"type"} == info.fields.Keys
  {
    FieldSetRelations();
  }
}
