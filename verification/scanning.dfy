/**
 Classification and field extraction: the per-prompt model requests, the
 assembly of trimmed answers into a record, the label classifier, the three
 fixed prompt sets and the three category scanners. The language model is an
 uninterpreted batch function.
 */
module Scanning {
  import opened Text
  import opened AccountingObjects

  /** One part of a message's content. */
  datatype ContentPart = TextPart(text: string) | ImageUrlPart(imageUrl: string)

  /** A user message to the model. */
  datatype Message = HumanMessage(content: seq<ContentPart>)

  type Conversation = seq<Message>

  /** The conversations of one batch call to the model. */
  type Batch = seq<Conversation>

  /** The candidate texts returned for one conversation; the first is the one read. */
  type Generation = seq<string>

  /** The model's batch call: one generation per conversation, by position. */
  type Model = Batch -> seq<Generation>

  /** Reading the first candidate of an empty generation is a runtime error. */
  datatype ScanError = MissingCandidate(index: nat)

  datatype Result<T> = Success(value: T) | Failure(error: ScanError)

  /** Field names paired with their instructions, in declaration order (the order
      in which the object's keys and values are enumerated). */
  type PromptSet = seq<(string, string)>

  function Keys(prompts: PromptSet): (keys: seq<string>)
    ensures |keys| == |prompts|
    ensures forall i :: 0 <= i < |prompts| ==> keys[i] == prompts[i].0
  {
    seq(|prompts|, i requires 0 <= i < |prompts| => prompts[i].0)
  }

  /** The field names of a prompt set. */
  function KeySet(prompts: PromptSet): set<string> {
    set k | k in Keys(prompts)
  }

  predicate Distinct(keys: seq<string>) {
    forall i, j :: 0 <= i < j < |keys| ==> keys[i] != keys[j]
  }

  // ---------------------------------------------------------------------------
  // Requests

  const DataUrlPrefix: string := "data:image/png;base64,"
  const TripleQuote: string := "\"\"\""
  /** What the message template puts between the quoted PDF text and the prompt:
      a line break and the template's indentation. */
  const PdfPromptSeparator: string := "\n            "

  /** The message asking `prompt` about `file`: for an image, the prompt and the
      image as a PNG data URL; for a PDF, one text part holding the quoted text
      followed by the prompt. */
  function CreateMessage(file: FileObject, prompt: string): (m: Message)
    ensures file.ImageObject? ==>
      && |m.content| == 2
      && m.content[0] == TextPart(prompt)
      && m.content[1].ImageUrlPart?
      && StartsWith(m.content[1].imageUrl, DataUrlPrefix)
      && m.content[1].imageUrl[|DataUrlPrefix|..] == file.base64Data
    ensures file.PdfObject? ==>
      && |m.content| == 1
      && m.content[0].TextPart?
      && StartsWith(m.content[0].text, TripleQuote + file.textContent + TripleQuote)
      && m.content[0].text[|TripleQuote + file.textContent + TripleQuote|..] == PdfPromptSeparator + prompt
  {
    match file
    case ImageObject(_, data) =>
      HumanMessage([TextPart(prompt), ImageUrlPart(DataUrlPrefix + data)])
    case PdfObject(_, text) =>
      HumanMessage([TextPart(TripleQuote + text + TripleQuote + PdfPromptSeparator + prompt)])
  }

  /** Different prompts about the same file give different messages, so each
      field's request is distinguishable from every other field's. */
  lemma CreateMessageInjective(file: FileObject, p1: string, p2: string)
    requires CreateMessage(file, p1) == CreateMessage(file, p2)
    ensures p1 == p2
  {
    match file
    case ImageObject(_, _) =>
      assert CreateMessage(file, p1).content[0] == TextPart(p1);
    case PdfObject(_, text) =>
      var head := TripleQuote + text + TripleQuote + PdfPromptSeparator;
      assert (head + p1)[|head|..] == p1;
      assert (head + p2)[|head|..] == p2;
  }

  /** The batch sent for a prompt set: one single-message conversation per
      prompt, in key order. */
  function Requests(file: FileObject, prompts: PromptSet): (batch: Batch)
    ensures |batch| == |prompts|
    ensures forall i :: 0 <= i < |prompts| ==> batch[i] == [CreateMessage(file, prompts[i].1)]
  {
    if |prompts| == 0 then []
    else [[CreateMessage(file, prompts[0].1)]] + Requests(file, prompts[1..])
  }

  // ---------------------------------------------------------------------------
  // Assembling the answers

  /** The property key written for the i-th generation: the i-th prompt key, or
      the text "undefined" when there are more generations than keys. */
  function KeyAt(keys: seq<string>, i: nat): string {
    if i < |keys| then keys[i] else "undefined"
  }

  /** The trimmed first candidate of every generation, in order; the first
      generation with no candidate is an error. */
  function FirstCandidates(gens: seq<Generation>): (r: Result<seq<string>>)
    ensures r.Failure? <==> exists j :: 0 <= j < |gens| && |gens[j]| == 0
    ensures r.Failure? ==>
      && r.error.index < |gens|
      && |gens[r.error.index]| == 0
      && forall j :: 0 <= j < r.error.index ==> |gens[j]| > 0
    ensures r.Success? ==>
      && |r.value| == |gens|
      && forall j :: 0 <= j < |gens| ==> r.value[j] == Trim(gens[j][0])
  {
    if |gens| == 0 then Success([])
    else
      match FirstCandidates(gens[..|gens| - 1])
      case Failure(e) => Failure(e)
      case Success(init) =>
        if |gens[|gens| - 1]| == 0 then Failure(MissingCandidate(|gens| - 1))
        else Success(init + [Trim(gens[|gens| - 1][0])])
  }

  /** The record after writing `answers[j]` under `KeyAt(keys, j)` for each `j`
      in order, so a later write to the same key wins. */
  function Fill(keys: seq<string>, answers: seq<string>): (m: map<string, string>)
    ensures m.Keys == KeysWritten(keys, |answers|)
    ensures forall k :: k in m ==> m[k] in answers
  {
    if |answers| == 0 then map[]
    else Fill(keys, answers[..|answers| - 1])[KeyAt(keys, |answers| - 1) := answers[|answers| - 1]]
  }

  /** The keys written for the first `n` answers. */
  function KeysWritten(keys: seq<string>, n: nat): (written: set<string>)
    ensures forall k :: k in written ==> k in keys || k == "undefined"
  {
    if n == 0 then {} else KeysWritten(keys, n - 1) + {KeyAt(keys, n - 1)}
  }

  /** With distinct keys and no more answers than keys, each key holds its own answer. */
  lemma {:induction false} FillValues(keys: seq<string>, answers: seq<string>)
    requires |answers| <= |keys| && Distinct(keys)
    ensures forall j :: 0 <= j < |answers| ==>
      keys[j] in Fill(keys, answers) && Fill(keys, answers)[keys[j]] == answers[j]
    decreases |answers|
  {
    if |answers| > 0 {
      var init := answers[..|answers| - 1];
      FillValues(keys, init);
      forall j | 0 <= j < |answers| - 1
        ensures keys[j] in Fill(keys, answers) && Fill(keys, answers)[keys[j]] == answers[j]
      {
        assert keys[j] != keys[|answers| - 1];
        assert init[j] == answers[j];
      }
    }
  }

  /** With one answer per key, the keys written are exactly the keys. */
  lemma {:induction false} KeysWrittenAll(keys: seq<string>, n: nat)
    requires n <= |keys|
    ensures KeysWritten(keys, n) == set k | k in keys[..n]
  {
    if n > 0 {
      KeysWrittenAll(keys, n - 1);
      assert keys[..n] == keys[..n - 1] + [keys[n - 1]];
    }
  }

  /** The record built from one batch's generations, keyed by `keys`: each
      generation's trimmed first candidate under its key, or the error for the
      first generation without a candidate. */
  function Assemble(keys: seq<string>, gens: seq<Generation>): (r: Result<map<string, string>>)
    ensures r.Failure? <==> exists j :: 0 <= j < |gens| && |gens[j]| == 0
    ensures r.Success? ==> r.value.Keys == KeysWritten(keys, |gens|)
    ensures r.Success? ==> forall k :: k in r.value ==>
      exists j :: 0 <= j < |gens| && |gens[j]| > 0 && r.value[k] == Trim(gens[j][0])
  {
    match FirstCandidates(gens)
    case Failure(e) => Failure(e)
    case Success(answers) =>
      var m := Fill(keys, answers);
      assert forall k :: k in m ==> exists j :: 0 <= j < |answers| && m[k] == answers[j];
      Success(m)
  }

  /** Runs one batch for a prompt set and assembles the record. */
  function Scan(file: FileObject, prompts: PromptSet, model: Model): (r: Result<map<string, string>>)
    ensures r.Failure? <==>
      exists j :: 0 <= j < |model(Requests(file, prompts))| && |model(Requests(file, prompts))[j]| == 0
    ensures r.Success? ==> forall k :: k in r.value ==> k in Keys(prompts) || k == "undefined"
  {
    Assemble(Keys(prompts), model(Requests(file, prompts)))
  }

  /** The model answered a batch with one non-empty generation per conversation. */
  ghost predicate AnswersEach(model: Model, batch: Batch) {
    && |model(batch)| == |batch|
    && forall j :: 0 <= j < |batch| ==> |model(batch)[j]| > 0
  }

  /** A provider that answers every batch with one non-empty generation per conversation. */
  ghost predicate WellBehaved(model: Model) {
    forall batch :: AnswersEach(model, batch)
  }

  /** With one non-empty generation per distinct key, assembly succeeds, the
      record's keys are exactly the keys, and each holds the trimmed first
      candidate of its own generation. */
  lemma AssembleRecord(keys: seq<string>, gens: seq<Generation>)
    requires Distinct(keys) && |gens| == |keys|
    requires forall j :: 0 <= j < |gens| ==> |gens[j]| > 0
    ensures Assemble(keys, gens).Success?
    ensures Assemble(keys, gens).value.Keys == set k | k in keys
    ensures forall j :: 0 <= j < |keys| ==>
      keys[j] in Assemble(keys, gens).value && Assemble(keys, gens).value[keys[j]] == Trim(gens[j][0])
  {
    var answers := FirstCandidates(gens).value;
    FillValues(keys, answers);
    KeysWrittenAll(keys, |keys|);
    assert keys[..|keys|] == keys;
  }

  /** When the model answers each request, the record's keys are exactly the
      prompt keys and each key holds the trimmed first candidate of its own
      request's answer: whatever the answers say, nothing is added or lost. */
  lemma ScanRecord(file: FileObject, prompts: PromptSet, model: Model)
    requires Distinct(Keys(prompts))
    requires AnswersEach(model, Requests(file, prompts))
    ensures Scan(file, prompts, model).Success?
    ensures Scan(file, prompts, model).value.Keys == KeySet(prompts)
    ensures forall i :: 0 <= i < |prompts| ==>
      && prompts[i].0 in Scan(file, prompts, model).value
      && Scan(file, prompts, model).value[prompts[i].0] == Trim(model(Requests(file, prompts))[i][0])
  {
    var keys := Keys(prompts);
    var gens := model(Requests(file, prompts));
    assert Scan(file, prompts, model) == Assemble(keys, gens);
    AssembleRecord(keys, gens);
  }

  // ---------------------------------------------------------------------------
  // Classification

  const DetectTypeKey: string := "detectType"

  /** The classification request: one prompt asking for one of the four labels. */
  const ClassifierPrompts: PromptSet := [(DetectTypeKey,
    "領収書か、サービスや物品購入の請求書か、業務委託の請求書か見積書かを判定してください。\n領収書の場合は「領収書」、サービスや物品購入の請求書の場合は「サービス請求書」、業務委託の請求書の場合は「業務委託請求書」と出力してください。\n見積書または、どれにも該当しない場合は「不明」と出力してください。    \n")]

  /** Maps the classifier's answer to a category by exact comparison with the
      three extractable labels; anything else is `Unknown`. */
  function ParseLabel(answer: string): (d: DocType)
    ensures d != DocType.Unknown ==> Label(d) == answer
    ensures d == DocType.Unknown <==>
      && answer != Label(Receipt)
      && answer != Label(ServiceInvoice)
      && answer != Label(OutsourcingInvoice)
  {
    if answer == "領収書" then Receipt
    else if answer == "サービス請求書" then ServiceInvoice
    else if answer == "業務委託請求書" then OutsourcingInvoice
    else DocType.Unknown
  }

  /** Parsing a category's label gives the category back, including the explicit
      "unclear" label, which gives `Unknown`. */
  lemma ParseLabelOfLabel(d: DocType)
    ensures ParseLabel(Label(d)) == d
  {
  }

  /** Asks the model for the document's category. A missing answer (no
      `detectType` property) compares unequal to every label, so it is `Unknown`. */
  function DetectDocumentType(file: FileObject, model: Model): (r: Result<DocType>)
    ensures r.Failure? <==> Scan(file, ClassifierPrompts, model).Failure?
    ensures r.Success? && r.value != DocType.Unknown ==>
      && DetectTypeKey in Scan(file, ClassifierPrompts, model).value
      && Scan(file, ClassifierPrompts, model).value[DetectTypeKey] == Label(r.value)
  {
    var scanned := Scan(file, ClassifierPrompts, model);
    if scanned.Failure? then Failure(scanned.error)
    else if DetectTypeKey in scanned.value then Success(ParseLabel(scanned.value[DetectTypeKey]))
    else Success(DocType.Unknown)
  }

  /** When the model answers the classification request, the category is the
      parse of its trimmed answer. */
  lemma DetectDocumentTypeAnswer(file: FileObject, model: Model)
    requires AnswersEach(model, Requests(file, ClassifierPrompts))
    ensures DetectDocumentType(file, model)
         == Success(ParseLabel(Trim(model(Requests(file, ClassifierPrompts))[0][0])))
  {
    ScanRecord(file, ClassifierPrompts, model);
  }

  /** The only way classification fails is a missing candidate in the answer. */
  lemma DetectDocumentTypeFailure(file: FileObject, model: Model)
    ensures DetectDocumentType(file, model).Failure? <==>
      exists j :: 0 <= j < |model(Requests(file, ClassifierPrompts))|
               && |model(Requests(file, ClassifierPrompts))[j]| == 0
  {
    var gens := model(Requests(file, ClassifierPrompts));
    var scanned := Scan(file, ClassifierPrompts, model);
    assert scanned == Assemble(Keys(ClassifierPrompts), gens);
    if FirstCandidates(gens).Failure? {
      var k := FirstCandidates(gens).error.index;
      assert scanned.Failure?;
      assert DetectDocumentType(file, model).Failure?;
      assert 0 <= k < |model(Requests(file, ClassifierPrompts))|
          && |model(Requests(file, ClassifierPrompts))[k]| == 0;
    } else {
      forall j | 0 <= j < |model(Requests(file, ClassifierPrompts))|
        ensures |model(Requests(file, ClassifierPrompts))[j]| != 0
      {
        assert FirstCandidates(gens).value[j] == Trim(gens[j][0]);
      }
      assert !scanned.Failure?;
      assert !DetectDocumentType(file, model).Failure?;
    }
  }

  // ---------------------------------------------------------------------------
  // Prompt sets

  const SelfCompanyName: string := "TSKaigi Association"

  const TotalPricePrompt: string := "合計金額を抜き出して。出力は金額の数値だけを出して。"
  const PublishedDatePrompt: string := "発行された日付を抜き出して。"
  const PaymentDueDatePrompt: string := "支払期限を抜き出して。"
  const InvoiceNumberPrompt: string :=
    "登録番号を抜き出して。\n  登録番号は、\"T\" + 数字13桁の形式です。\n  出力は登録番号だけを出して。\n  \"T\"から始まる登録番号が見つからない場合は、「なし」を出して"
  const Tax10Prompt: string :=
    "税率10%対象の消費税額を金額の数値だけ抜き出して。10%の記載が無い時は、税率8%対象の消費税が見つかった場合は\"0\"、見つからない場合は消費税額を見つけて金額の数値だけ抜き出して"
  const Tax8Prompt: string :=
    "税率8%対象の消費税額を金額の数値だけ抜き出して。8%の記載がない場合は、税率10%対象の消費税が見つかった場合は\"0\"、見つからない場合は消費税額を見つけて金額の数値だけ抜き出して"

  /** The instructions shared by the category prompt sets. */
  const CommonPrompts: PromptSet := [
    ("totalPrice", TotalPricePrompt),
    ("publishedDate", PublishedDatePrompt),
    ("paymentDueDate", PaymentDueDatePrompt),
    ("invoiceNumber", InvoiceNumberPrompt),
    ("tax10", Tax10Prompt),
    ("tax8", Tax8Prompt)
  ]

  const ServiceInvoicePrompts: PromptSet := [
    ("company",
      "会社名、店名を抜き出して。出力は名前だけを出して。\n\"" + SelfCompanyName + "\"が含まれる会社名は、自社なので無視をして。\n会社名 > 店名の順の優先度で抜き出して。\n店名の場合は、地名まで含めて出して。\n  "),
    ("totalPrice", TotalPricePrompt),
    ("publishedDate", PublishedDatePrompt),
    ("paymentDueDate", PaymentDueDatePrompt),
    ("invoiceNumber", InvoiceNumberPrompt),
    ("tax10", Tax10Prompt),
    ("tax8", Tax8Prompt)
  ]

  const OutsourcingInvoicePrompts: PromptSet := [
    ("company",
      "会社名、または、個人名を抜き出して。出力は名前だけを出して。\n\"" + SelfCompanyName + "\"が含まれる会社名は、自社なので無視をして。\n会社名 > 個人名の順の優先度で抜き出して。\n  "),
    ("totalPrice", TotalPricePrompt),
    ("publishedDate", PublishedDatePrompt),
    ("paymentDueDate", PaymentDueDatePrompt),
    ("invoiceNumber", InvoiceNumberPrompt),
    ("tax10", Tax10Prompt),
    ("withholdingTax", "源泉所得税の金額を数値だけ抜き出して。該当する項目が無い場合は、\"なし\"と出力して")
  ]

  const ReceiptPrompts: PromptSet := [
    ("company",
      "会社名、または、店名を抜き出して。出力は名前だけを出して。\n\"" + SelfCompanyName + "\"が含まれる会社名は、自社なので無視をして。\n会社名 > 店名の順の優先度で抜き出して。\n店名の場合は、地名まで含めて出して。\n  "),
    ("totalPrice", TotalPricePrompt),
    ("publishedDate", PublishedDatePrompt),
    ("invoiceNumber", InvoiceNumberPrompt),
    ("tax10", Tax10Prompt),
    ("tax8", Tax8Prompt)
  ]

  /** The prompt set of an extractable category. */
  function PromptsFor(d: DocType): PromptSet
    requires d != DocType.Unknown
  {
    match d
    case Receipt => ReceiptPrompts
    case ServiceInvoice => ServiceInvoicePrompts
    case OutsourcingInvoice => OutsourcingInvoicePrompts
  }

  /** The declared record fields of an extractable category. */
  function FieldsFor(d: DocType): set<string>
    requires d != DocType.Unknown
  {
    match d
    case Receipt => ReceiptFields
    case ServiceInvoice => ServiceInvoiceFields
    case OutsourcingInvoice => OutsourcingInvoiceFields
  }

  /** Every field a prompt set shares with the common instructions uses the common
      instruction text unchanged. */
  predicate ReusesCommonPrompts(prompts: PromptSet) {
    forall i, j :: 0 <= i < |prompts| && 0 <= j < |CommonPrompts| && prompts[i].0 == CommonPrompts[j].0 ==>
      prompts[i].1 == CommonPrompts[j].1
  }

  /** The key list of a prompt set with these field names, in this order. */
  lemma KeysAre(prompts: PromptSet, names: seq<string>)
    requires |prompts| == |names|
    requires forall i :: 0 <= i < |prompts| ==> prompts[i].0 == names[i]
    ensures Keys(prompts) == names
    ensures KeySet(prompts) == set k | k in names
  {
  }

  lemma ReceiptPromptKeys()
    ensures Keys(ReceiptPrompts) == ["company", "totalPrice", "publishedDate", "invoiceNumber", "tax10", "tax8"]
    ensures KeySet(ReceiptPrompts) == ReceiptFields
    ensures Distinct(Keys(ReceiptPrompts))
  {
    KeysAre(ReceiptPrompts, ["company", "totalPrice", "publishedDate", "invoiceNumber", "tax10", "tax8"]);
  }

  lemma ServiceInvoicePromptKeys()
    ensures Keys(ServiceInvoicePrompts)
         == ["company", "totalPrice", "publishedDate", "paymentDueDate", "invoiceNumber", "tax10", "tax8"]
    ensures KeySet(ServiceInvoicePrompts) == ServiceInvoiceFields
    ensures Distinct(Keys(ServiceInvoicePrompts))
  {
    KeysAre(ServiceInvoicePrompts,
      ["company", "totalPrice", "publishedDate", "paymentDueDate", "invoiceNumber", "tax10", "tax8"]);
  }

  lemma OutsourcingInvoicePromptKeys()
    ensures Keys(OutsourcingInvoicePrompts)
         == ["company", "totalPrice", "publishedDate", "paymentDueDate", "invoiceNumber", "tax10", "withholdingTax"]
    ensures KeySet(OutsourcingInvoicePrompts) == OutsourcingInvoiceFields
    ensures Distinct(Keys(OutsourcingInvoicePrompts))
  {
    KeysAre(OutsourcingInvoicePrompts,
      ["company", "totalPrice", "publishedDate", "paymentDueDate", "invoiceNumber", "tax10", "withholdingTax"]);
  }

  /** The receipt prompts reuse the shared instruction of every field they share. */
  lemma ReceiptReusesCommon()
    ensures ReusesCommonPrompts(ReceiptPrompts)
  {
  }

  /** The service invoice prompts reuse the shared instruction of every field they share. */
  lemma ServiceInvoiceReusesCommon()
    ensures ReusesCommonPrompts(ServiceInvoicePrompts)
  {
  }

  /** The outsourcing invoice prompts reuse the shared instruction of every field they share. */
  lemma OutsourcingInvoiceReusesCommon()
    ensures ReusesCommonPrompts(OutsourcingInvoicePrompts)
  {
  }

  /** Each prompt set's keys are distinct and are exactly its record type's
      declared fields, none of them is `type` or `undefined`, and the shared fields
      reuse the common instructions verbatim. */
  lemma PromptSetsMatchRecordTypes(d: DocType)
    requires d != DocType.Unknown
    ensures Distinct(Keys(PromptsFor(d)))
    ensures KeySet(PromptsFor(d)) == FieldsFor(d)
    ensures "type" !in FieldsFor(d) && "undefined" !in FieldsFor(d)
    ensures ReusesCommonPrompts(PromptsFor(d))
  {
    FieldSetRelations();
    match d
    case Receipt =>
      ReceiptPromptKeys();
      ReceiptReusesCommon();
      assert PromptsFor(d) == ReceiptPrompts;
    case ServiceInvoice =>
      ServiceInvoicePromptKeys();
      ServiceInvoiceReusesCommon();
      assert PromptsFor(d) == ServiceInvoicePrompts;
    case OutsourcingInvoice =>
      OutsourcingInvoicePromptKeys();
      OutsourcingInvoiceReusesCommon();
      assert PromptsFor(d) == OutsourcingInvoicePrompts;
  }

  // ---------------------------------------------------------------------------
  // Category scanners

  /** Extracts the receipt fields and tags the record as a receipt. */
  function ReceiptScanner(file: FileObject, model: Model): (r: Result<Info>)
    ensures r.Success? ==> r.value.ReceiptInfo?
  {
    match Scan(file, ReceiptPrompts, model)
    case Failure(e) => Failure(e)
    case Success(fields) => Success(ReceiptInfo(fields))
  }

  /** Extracts the service invoice fields and tags the record as a service invoice. */
  function ServiceInvoiceScanner(file: FileObject, model: Model): (r: Result<Info>)
    ensures r.Success? ==> r.value.ServiceInvoiceInfo?
  {
    match Scan(file, ServiceInvoicePrompts, model)
    case Failure(e) => Failure(e)
    case Success(fields) => Success(ServiceInvoiceInfo(fields))
  }

  /** Extracts the outsourcing invoice fields and tags the record as an outsourcing invoice. */
  function OutsourcingInvoiceScanner(file: FileObject, model: Model): (r: Result<Info>)
    ensures r.Success? ==> r.value.OutsourcingInvoiceInfo?
  {
    match Scan(file, OutsourcingInvoicePrompts, model)
    case Failure(e) => Failure(e)
    case Success(fields) => Success(OutsourcingInvoiceInfo(fields))
  }

  /** The scanner of an extractable category. */
  function ScannerFor(d: DocType, file: FileObject, model: Model): Result<Info>
    requires d != DocType.Unknown
  {
    match d
    case Receipt => ReceiptScanner(file, model)
    case ServiceInvoice => ServiceInvoiceScanner(file, model)
    case OutsourcingInvoice => OutsourcingInvoiceScanner(file, model)
  }

  /** A category's scanner fails exactly when its scan does, with the scan's
      error: no partial record is returned. */
  lemma ScannerFailsWithScan(d: DocType, file: FileObject, model: Model)
    requires d != DocType.Unknown
    ensures ScannerFor(d, file, model).Failure? <==> Scan(file, PromptsFor(d), model).Failure?
    ensures ScannerFor(d, file, model).Failure? ==>
      ScannerFor(d, file, model).error == Scan(file, PromptsFor(d), model).error
  {
  }

  /** The `type` tag each category's records carry. */
  function TagFor(d: DocType): string
    requires d != DocType.Unknown
  {
    TypeTag(Record(d, map[]))
  }

  /** When the model answers each field request, a category's scanner returns a
      record tagged with that category whose fields are exactly the declared
      fields, each holding the trimmed answer to its own prompt. */
  lemma ScannerRecord(d: DocType, file: FileObject, model: Model)
    requires d != DocType.Unknown
    requires AnswersEach(model, Requests(file, PromptsFor(d)))
    ensures ScannerFor(d, file, model).Success?
    ensures WellTyped(ScannerFor(d, file, model).value)
    ensures TypeTag(ScannerFor(d, file, model).value) == TagFor(d)
    ensures ToObject(ScannerFor(d, file, model).value).Keys == {"type"} + FieldsFor(d)
    ensures forall i :: 0 <= i < |PromptsFor(d)| ==>
      && PromptsFor(d)[i].0 in ScannerFor(d, file, model).value.fields
      && ScannerFor(d, file, model).value.fields[PromptsFor(d)[i].0]
         == Trim(model(Requests(file, PromptsFor(d)))[i][0])
  {
    PromptSetsMatchRecordTypes(d);
    ScanRecord(file, PromptsFor(d), model);
    WellTypedObject(ScannerFor(d, file, model).value);
  }
}
