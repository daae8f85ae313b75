/**
 File-type detection, loading and the per-file orchestration: load, classify,
 then dispatch to the category's scanner, short-circuiting to an unknown record
 for unsupported files and indeterminate categories. Reading files, PDF text
 extraction and base64 encoding are functions supplied by the host.
 */
module ReceiptScanner {
  import opened Text
  import opened AccountingObjects
  import opened Scanning

  /** The host capabilities the loader uses. */
  datatype Host = Host(
    readFile: string -> seq<bv8>,      // the file's bytes
    base64: seq<bv8> -> string,        // the base64 text of some bytes
    pdfPages: string -> seq<string>    // the text of each page of a PDF, in page order
  )

  /** Classifies a file name by its exact, case-sensitive suffix. */
  function DetectFileType(filename: string): (t: FileType)
    ensures t == FileType.Image <==> EndsWith(filename, ".png") || EndsWith(filename, ".jpg")
    ensures t == FileType.PDF <==>
      !EndsWith(filename, ".png") && !EndsWith(filename, ".jpg") && EndsWith(filename, ".pdf")
  {
    if EndsWith(filename, ".png") || EndsWith(filename, ".jpg") then FileType.Image
    else if EndsWith(filename, ".pdf") then FileType.PDF
    else FileType.Unknown
  }

  /** The index of the last occurrence of `c` in `s`, or -1 when there is none. */
  function LastIndexOf(s: string, c: char): (k: int)
    ensures -1 <= k < |s|
    ensures k == -1 <==> c !in s
    ensures k >= 0 ==> s[k] == c && c !in s[k + 1..]
  {
    if |s| == 0 then -1
    else if s[|s| - 1] == c then |s| - 1
    else
      var k := LastIndexOf(s[..|s| - 1], c);
      SuffixAfter(s, k);
      k
  }

  datatype Option<T> = None | Some(value: T)

  /** The extension of a file name: the text after its last dot, if it has one. */
  function Extension(filename: string): (e: Option<string>)
    ensures e.Some? ==> '.' !in e.value && EndsWith(filename, "." + e.value)
  {
    var k := LastIndexOf(filename, '.');
    if k < 0 then None
    else
      var e := filename[k + 1..];
      assert filename[|filename| - |"." + e|..] == "." + e;
      Some(e)
  }

  /** The last occurrence is the only occurrence with none after it. */
  lemma LastIndexOfUnique(s: string, c: char, k: nat)
    requires k < |s| && s[k] == c && c !in s[k + 1..]
    ensures LastIndexOf(s, c) == k
  {
  }

  /** A dot-free extension is what a name ends in exactly when it is the text
      after the name's last dot. */
  lemma EndsWithExtension(filename: string, ext: string)
    requires '.' !in ext
    ensures EndsWith(filename, "." + ext) <==> Extension(filename) == Some(ext)
  {
    if EndsWith(filename, "." + ext) {
      var k := |filename| - |ext| - 1;
      assert filename[k] == '.' && filename[k + 1..] == ext;
      LastIndexOfUnique(filename, '.', k);
    }
  }

  /** Detection agrees with the extension read off the name: `png` and `jpg` are
      images, `pdf` is a PDF, and every other extension, or none, is unknown. */
  lemma DetectFileTypeByExtension(filename: string)
    ensures DetectFileType(filename) == match Extension(filename) {
      case Some(e) =>
        if e == "png" || e == "jpg" then FileType.Image
        else if e == "pdf" then FileType.PDF
        else FileType.Unknown
      case None => FileType.Unknown
    }
  {
    assert "." + "png" == ".png" && "." + "jpg" == ".jpg" && "." + "pdf" == ".pdf";
    EndsWithExtension(filename, "png");
    EndsWithExtension(filename, "jpg");
    EndsWithExtension(filename, "pdf");
    match Extension(filename)
    case None =>
    case Some(e) =>
  }

  /** Suffix matching is exact and case-sensitive. */
  lemma DetectFileTypeExamples()
    ensures DetectFileType("scan.png") == FileType.Image
    ensures DetectFileType("scan.jpg") == FileType.Image
    ensures DetectFileType("bill.pdf") == FileType.PDF
    ensures DetectFileType("bill.PDF") == FileType.Unknown
    ensures DetectFileType("scan.jpeg") == FileType.Unknown
    ensures DetectFileType("notes.txt") == FileType.Unknown
  {
  }

  /** Loads a file according to its detected type: an image becomes the base64
      text of its bytes, a PDF the text of its pages joined by line breaks, and
      anything else only its name. */
  function LoadFile(filename: string, host: Host): (loaded: LoadedFile)
    ensures loaded.Filename() == filename
    ensures loaded.UnknownObject? <==> DetectFileType(filename) == FileType.Unknown
    ensures loaded.Supported? ==> loaded.file.Type() == DetectFileType(filename)
    ensures loaded.Supported? && loaded.file.ImageObject? ==>
      loaded.file.base64Data == host.base64(host.readFile(filename))
    ensures loaded.Supported? && loaded.file.PdfObject? ==>
      loaded.file.textContent == Join(host.pdfPages(filename), '\n')
  {
    match DetectFileType(filename)
    case Image => Supported(ImageObject(filename, host.base64(host.readFile(filename))))
    case PDF => Supported(PdfObject(filename, Join(host.pdfPages(filename), '\n')))
    case Unknown => UnknownObject(filename)
  }

  /** A loaded PDF's text holds its pages in order: splitting it at line breaks
      gives the pages back, as long as there is a page and no page has a line
      break of its own. */
  lemma LoadedPdfPages(filename: string, host: Host)
    requires DetectFileType(filename) == FileType.PDF
    requires |host.pdfPages(filename)| >= 1
    requires forall i :: 0 <= i < |host.pdfPages(filename)| ==> '\n' !in host.pdfPages(filename)[i]
    ensures LoadFile(filename, host).file.PdfObject?
    ensures Split(LoadFile(filename, host).file.textContent, '\n') == host.pdfPages(filename)
  {
    SplitJoin(host.pdfPages(filename), '\n');
  }

  /** A loaded PDF's text holds its pages' lines in page order, whatever line
      breaks the pages hold: its lines are the lines of the first page, then
      those of the second, and so on. A PDF without pages has one empty line. */
  lemma LoadedPdfLines(filename: string, host: Host)
    requires DetectFileType(filename) == FileType.PDF
    ensures LoadFile(filename, host).file.PdfObject?
    ensures var pages := host.pdfPages(filename);
      Split(LoadFile(filename, host).file.textContent, '\n')
        == if |pages| == 0 then [""] else SplitEach(pages, '\n')
  {
    var pages := host.pdfPages(filename);
    if |pages| > 0 {
      SplitJoinPieces(pages, '\n');
    }
  }

  /** A loaded image carries the base64 text of the file's bytes. */
  lemma LoadedImageData(filename: string, host: Host)
    requires DetectFileType(filename) == FileType.Image
    ensures LoadFile(filename, host) == Supported(ImageObject(filename, host.base64(host.readFile(filename))))
  {
  }

  /** The outcome of scanning one file and the batches it sent to the model, in order. */
  datatype Run = Run(outcome: Result<Info>, calls: seq<Batch>)

  /** Scans one file: unsupported files and indeterminate categories give an
      unknown record with the file's name; otherwise the category's scanner runs
      on the loaded file. */
  function ScanFile(filename: string, host: Host, model: Model): (run: Run)
    ensures DetectFileType(filename) == FileType.Unknown ==>
      run == Run(Success(UnknownInfo(filename)), [])
    ensures DetectFileType(filename) != FileType.Unknown ==>
      1 <= |run.calls| <= 2 && run.calls[0] == Requests(LoadFile(filename, host).file, ClassifierPrompts)
  {
    match LoadFile(filename, host)
    case UnknownObject(_) => Run(Success(UnknownInfo(filename)), [])
    case Supported(file) =>
      var classify := Requests(file, ClassifierPrompts);
      match DetectDocumentType(file, model)
      case Failure(e) => Run(Failure(e), [classify])
      case Success(d) =>
        if d == DocType.Unknown then Run(Success(UnknownInfo(filename)), [classify])
        else Run(ScannerFor(d, file, model), [classify, Requests(file, PromptsFor(d))])
  }

  /** An unsupported file never reaches the model: the result does not depend on
      the model or on the host at all. */
  lemma UnsupportedIgnoresModel(filename: string, h1: Host, h2: Host, m1: Model, m2: Model)
    requires DetectFileType(filename) == FileType.Unknown
    ensures ScanFile(filename, h1, m1) == ScanFile(filename, h2, m2)
    ensures ScanFile(filename, h1, m1).calls == []
  {
  }

  /** An indeterminate category gives the unknown record with the same file
      name after exactly one model call, the classification. */
  lemma IndeterminateShortCircuits(filename: string, host: Host, model: Model)
    requires LoadFile(filename, host).Supported?
    requires DetectDocumentType(LoadFile(filename, host).file, model) == Success(DocType.Unknown)
    ensures ScanFile(filename, host, model).outcome == Success(UnknownInfo(filename))
    ensures |ScanFile(filename, host, model).calls| == 1
  {
  }

  /** An extractable category dispatches to that category's scanner with the
      loaded file, after the classification call and before nothing else. */
  lemma DispatchesToScanner(filename: string, host: Host, model: Model, d: DocType)
    requires d != DocType.Unknown
    requires LoadFile(filename, host).Supported?
    requires DetectDocumentType(LoadFile(filename, host).file, model) == Success(d)
    ensures ScanFile(filename, host, model).outcome == ScannerFor(d, LoadFile(filename, host).file, model)
    ensures ScanFile(filename, host, model).calls
         == [Requests(LoadFile(filename, host).file, ClassifierPrompts),
             Requests(LoadFile(filename, host).file, PromptsFor(d))]
  {
  }

  /** A failed classification makes the whole scan fail with its error, after
      the classification call alone. */
  lemma ClassificationFailurePropagates(filename: string, host: Host, model: Model)
    requires LoadFile(filename, host).Supported?
    requires DetectDocumentType(LoadFile(filename, host).file, model).Failure?
    ensures ScanFile(filename, host, model).outcome
         == Failure(DetectDocumentType(LoadFile(filename, host).file, model).error)
    ensures |ScanFile(filename, host, model).calls| == 1
  {
  }

  /** A failed extraction for an extractable category makes the whole scan fail
      with the extraction's error after both calls: no partial record is returned. */
  lemma ExtractionFailurePropagates(filename: string, host: Host, model: Model, d: DocType)
    requires d != DocType.Unknown
    requires LoadFile(filename, host).Supported?
    requires DetectDocumentType(LoadFile(filename, host).file, model) == Success(d)
    requires Scan(LoadFile(filename, host).file, PromptsFor(d), model).Failure?
    ensures ScanFile(filename, host, model).outcome
         == Failure(Scan(LoadFile(filename, host).file, PromptsFor(d), model).error)
    ensures |ScanFile(filename, host, model).calls| == 2
  {
    DispatchesToScanner(filename, host, model, d);
    ScannerFailsWithScan(d, LoadFile(filename, host).file, model);
  }

  /** With a model that answers every request, scanning never fails and always
      yields a well-typed record: the unknown record with the file's name, or
      the record of the category the classifier's trimmed answer names, whose
      fields are exactly its declared fields. */
  lemma ScanFileWellTyped(filename: string, host: Host, model: Model)
    requires WellBehaved(model)
    ensures ScanFile(filename, host, model).outcome.Success?
    ensures WellTyped(ScanFile(filename, host, model).outcome.value)
    ensures ScanFile(filename, host, model).outcome.value.UnknownInfo? ==>
      ScanFile(filename, host, model).outcome.value.filename == filename
    ensures LoadFile(filename, host).Supported? ==>
      var d := DetectDocumentType(LoadFile(filename, host).file, model).value;
      d != DocType.Unknown ==> TypeTag(ScanFile(filename, host, model).outcome.value) == TagFor(d)
  {
    var loaded := LoadFile(filename, host);
    if loaded.Supported? {
      var file := loaded.file;
      assert AnswersEach(model, Requests(file, ClassifierPrompts));
      DetectDocumentTypeAnswer(file, model);
      var d := DetectDocumentType(file, model).value;
      if d == DocType.Unknown {
        IndeterminateShortCircuits(filename, host, model);
      } else {
        assert AnswersEach(model, Requests(file, PromptsFor(d)));
        ScannerRecord(d, file, model);
        assert !ScannerFor(d, file, model).value.UnknownInfo? by {
          match d
          case Receipt =>
          case ServiceInvoice =>
          case OutsourcingInvoice =>
        }
        DispatchesToScanner(filename, host, model, d);
      }
    } else {
      assert ScanFile(filename, host, model).outcome == Success(UnknownInfo(filename));
    }
  }
}
