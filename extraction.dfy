/** ocr/run.py: text extraction by content type. PDFs are rendered one image
    per page and each page is OCR'd; Word documents are first written to a
    fixed temporary file and converted to PDF; images are OCR'd directly.
    OCR (`Image.open` + `image_to_string`), rendering (`convert_pdf_to_images`)
    and conversion (`pypandoc.convert_file`) are the abstract `Engines`. */
module Extraction {
  import opened Wrappers
  import opened TextOps
  import opened Collaborators

  const PdfType: string := "application/pdf"
  const DocxType: string := "application/vnd.openxmlformats-officedocument.wordprocessingml.document"
  const DocType: string := "application/msword"
  const JpegType: string := "image/jpeg"
  const PngType: string := "image/png"

  /** The content types `process_file` has a handler for. */
  const ExtractableTypes: set<string> := {PdfType, DocxType, DocType, JpegType, PngType}

  /** Where `handle_docx` writes the upload, and where the conversion writes its PDF. */
  const TempWordPath: string := "/tmp/temp_file.docx"
  const DefaultPdfPath: string := "output.pdf"

  /** What the per-page texts are joined with. */
  const PageSeparator: string := "\n"

  datatype ExtractError =
    | UnsupportedFileType(contentType: string)  // the ValueError of process_file
    | ImageUnreadable                           // decoding or OCR of an image raised
    | RenderFailed                              // the PDF could not be rendered
    | ConversionFailed                          // the Word-to-PDF conversion raised

  datatype Engines = Engines(
    ocr: Bytes -> Option<string>,         // decode an encoded image and OCR it
    render: Bytes -> Option<seq<Bytes>>,  // one JPEG per page, in page order
    convert: Bytes -> Option<Bytes>)      // a Word document's bytes to PDF bytes

  datatype Handler = PdfHandler | WordHandler | ImageHandler

  /** The if/elif chain of `process_file`. */
  function HandlerFor(contentType: string): (h: Option<Handler>)
    ensures h.Some? <==> contentType in ExtractableTypes
    ensures h == Some(PdfHandler) <==> contentType == PdfType
    ensures h == Some(WordHandler) <==> contentType == DocxType || contentType == DocType
    ensures h == Some(ImageHandler) <==> contentType == JpegType || contentType == PngType
  {
    if contentType == PdfType then Some(PdfHandler)
    else if contentType in [DocxType, DocType] then Some(WordHandler)
    else if contentType in [JpegType, PngType] then Some(ImageHandler)
    else None
  }

  /** The OCR text of every image, in order; None as soon as one image fails. */
  function OcrPages(images: seq<Bytes>, ocr: Bytes -> Option<string>): (r: Option<seq<string>>)
    ensures r.Some? <==> forall i :: 0 <= i < |images| ==> ocr(images[i]).Some?
    ensures r.Some? ==> |r.value| == |images|
    ensures r.Some? ==> forall i :: 0 <= i < |images| ==> r.value[i] == ocr(images[i]).value
  {
    if images == [] then Some([])
    else
      var init := OcrPages(images[..|images| - 1], ocr);
      var last := ocr(images[|images| - 1]);
      if init.None? || last.None? then None else Some(init.value + [last.value])
  }

  /** What `extract_text_with_pytesseract` computes: the page texts joined by "\n". */
  function ImagesText(images: seq<Bytes>, ocr: Bytes -> Option<string>): Result<string, ExtractError> {
    match OcrPages(images, ocr)
    case None => Failure(ImageUnreadable)
    case Some(texts) => Success(Join(texts, PageSeparator))
  }

  /** `handle_image`: OCR once, on the decoded upload; no joining. */
  function HandleImage(file: Bytes, ocr: Bytes -> Option<string>): (r: Result<string, ExtractError>)
    ensures r.Success? <==> ocr(file).Some?
    ensures r.Success? ==> r.value == ocr(file).value
    ensures r.Failure? ==> r.error == ImageUnreadable
  {
    match ocr(file)
    case None => Failure(ImageUnreadable)
    case Some(text) => Success(text)
  }

  /** Render a PDF, then OCR its pages. */
  function PdfText(pdf: Bytes, eng: Engines): Result<string, ExtractError> {
    match eng.render(pdf)
    case None => Failure(RenderFailed)
    case Some(images) => ImagesText(images, eng.ocr)
  }

  /** What `process_file` returns or raises for an upload. */
  function Extracted(file: Bytes, contentType: string, eng: Engines): Result<string, ExtractError> {
    match HandlerFor(contentType)
    case None => Failure(UnsupportedFileType(contentType))
    case Some(PdfHandler) => PdfText(file, eng)
    case Some(WordHandler) =>
      (match eng.convert(file)
       case None => Failure(ConversionFailed)
       case Some(pdf) => PdfText(pdf, eng))
    case Some(ImageHandler) => HandleImage(file, eng.ocr)
  }

  /** The files `handle_docx` leaves behind: the upload at the temporary path
      and, when conversion succeeds, its PDF at the default output path. */
  function AfterWordConversion(files: map<string, Bytes>, file: Bytes, convert: Bytes -> Option<Bytes>): map<string, Bytes> {
    var written := files[TempWordPath := file];
    match convert(file)
    case None => written
    case Some(pdf) => written[DefaultPdfPath := pdf]
  }

  /** The local file system the Word path writes to. */
  class Disk {
    var files: map<string, Bytes>

    constructor ()
      ensures files == map[]
    {
      files := map[];
    }

    method Write(path: string, data: Bytes)
      modifies this
      ensures files == old(files)[path := data]
    {
      files := files[path := data];
    }
  }

  /** `extract_text_with_pytesseract`: OCR each image in turn, collecting the
      texts, then join them with "\n". */
  method ExtractTextWithPytesseract(images: seq<Bytes>, ocr: Bytes -> Option<string>) returns (r: Result<string, ExtractError>)
    ensures r == ImagesText(images, ocr)
  {
    var imageContent: seq<string> := [];
    var i := 0;
    while i < |images|
      invariant 0 <= i <= |images|
      invariant OcrPages(images[..i], ocr) == Some(imageContent)
    {
      var rawText := ocr(images[i]);
      if rawText.None? {
        assert images[..i + 1][..i] == images[..i];
        NoneExtends(images, i + 1, ocr);
        return Failure(ImageUnreadable);
      }
      assert images[..i + 1][..i] == images[..i];
      imageContent := imageContent + [rawText.value];
      i := i + 1;
    }
    assert images[..i] == images;
    r := Success(Join(imageContent, PageSeparator));
  }

  /** A failed page makes the whole extraction fail, whatever follows it. */
  lemma {:induction false} NoneExtends(images: seq<Bytes>, k: nat, ocr: Bytes -> Option<string>)
    requires k <= |images| && OcrPages(images[..k], ocr).None?
    ensures OcrPages(images, ocr).None?
    decreases |images| - k
  {
    if k < |images| {
      assert images[..k + 1][..k] == images[..k];
      NoneExtends(images, k + 1, ocr);
    } else {
      assert images[..k] == images;
    }
  }

  /** `convert_word_to_pdf`: convert the file at `wordFile` and write the PDF to `outputPdf`. */
  method ConvertWordToPdf(disk: Disk, wordFile: string, outputPdf: string, convert: Bytes -> Option<Bytes>)
    returns (r: Option<string>)
    requires wordFile in disk.files
    modifies disk
    ensures convert(old(disk.files[wordFile])).None? ==> r == None && disk.files == old(disk.files)
    ensures convert(old(disk.files[wordFile])).Some? ==>
      r == Some(outputPdf) && disk.files == old(disk.files)[outputPdf := convert(old(disk.files[wordFile])).value]
  {
    var pdf := convert(disk.files[wordFile]);
    if pdf.None? {
      return None;
    }
    disk.Write(outputPdf, pdf.value);
    return Some(outputPdf);
  }

  /** `handle_pdf`: render the uploaded bytes, then OCR the pages. */
  method HandlePdf(file: Bytes, eng: Engines) returns (r: Result<string, ExtractError>)
    ensures r == PdfText(file, eng)
  {
    var images := eng.render(file);
    if images.None? {
      return Failure(RenderFailed);
    }
    r := ExtractTextWithPytesseract(images.value, eng.ocr);
  }

  /** `handle_docx`: write the upload to the fixed temporary path, convert it to
      the fixed PDF path, then render and OCR that PDF. */
  method HandleDocx(file: Bytes, eng: Engines, disk: Disk) returns (r: Result<string, ExtractError>)
    modifies disk
    ensures r == Extracted(file, DocxType, eng)
    ensures disk.files == AfterWordConversion(old(disk.files), file, eng.convert)
  {
    disk.Write(TempWordPath, file);
    var pdfFile := ConvertWordToPdf(disk, TempWordPath, DefaultPdfPath, eng.convert);
    if pdfFile.None? {
      return Failure(ConversionFailed);
    }
    var images := eng.render(disk.files[pdfFile.value]);
    if images.None? {
      return Failure(RenderFailed);
    }
    r := ExtractTextWithPytesseract(images.value, eng.ocr);
  }

  /** `process_file`: dispatch on the content type; any other type raises
      before a handler runs, and only the Word path touches the disk. */
  method ProcessFile(file: Bytes, contentType: string, eng: Engines, disk: Disk) returns (r: Result<string, ExtractError>)
    modifies disk
    ensures r == Extracted(file, contentType, eng)
    ensures HandlerFor(contentType) == Some(WordHandler) ==>
      disk.files == AfterWordConversion(old(disk.files), file, eng.convert)
    ensures HandlerFor(contentType) != Some(WordHandler) ==> disk.files == old(disk.files)
  {
    if contentType == PdfType {
      r := HandlePdf(file, eng);
    } else if contentType in [DocxType, DocType] {
      r := HandleDocx(file, eng, disk);
    } else if contentType in [JpegType, PngType] {
      r := HandleImage(file, eng.ocr);
    } else {
      r := Failure(UnsupportedFileType(contentType));
    }
  }

  // ---------------------------------------------------------------------------
  // Properties of extraction

  /** Extraction of a batch of page images succeeds exactly when every page is read. */
  lemma ImagesTextSucceeds(images: seq<Bytes>, ocr: Bytes -> Option<string>)
    ensures ImagesText(images, ocr).Success? <==> forall k :: 0 <= k < |images| ==> ocr(images[k]).Some?
  {
  }

  /** The extracted text holds page `i`'s text at the offset after the pages
      before it and one "\n" per page before it, so pages keep their order. */
  lemma ImagesTextPageAt(images: seq<Bytes>, ocr: Bytes -> Option<string>, i: nat, text: string)
    requires i < |images|
    requires ImagesText(images, ocr) == Success(text)
    ensures OcrPages(images, ocr).Some?
    ensures var pages := OcrPages(images, ocr).value;
      && |pages| == |images|
      && pages[i] == ocr(images[i]).value
      && PageAt(pages, i, text)
  {
    var pages := OcrPages(images, ocr).value;
    PageAtJoin(pages, i, text);
  }

  /** Page `i` stands in `text` after the pages before it, each followed by
      one "\n", and a "\n" follows it unless it is the last. */
  ghost predicate PageAt(pages: seq<string>, i: nat, text: string)
    requires i < |pages|
  {
    var at := PartOffset(pages, PageSeparator, i);
    && at + |pages[i]| <= |text|
    && text[at..at + |pages[i]|] == pages[i]
    && (i + 1 < |pages| ==> at + |pages[i]| < |text| && text[at + |pages[i]|] == '\n')
  }

  /** Page `i` of the joined text and the "\n" after it, for any page texts. */
  lemma PageAtJoin(pages: seq<string>, i: nat, text: string)
    requires i < |pages| && text == Join(pages, PageSeparator)
    ensures PageAt(pages, i, text)
  {
    JoinPartAt(pages, PageSeparator, i);
    PageAtSeparator(pages, i, text, PartOffset(pages, PageSeparator, i));
  }

  /** Page `i` at offset `at`, followed by the separator string unless it is
      the last, gives `PageAt`. */
  lemma PageAtSeparator(pages: seq<string>, i: nat, text: string, at: nat)
    requires i < |pages| && at == PartOffset(pages, PageSeparator, i)
    requires at + |pages[i]| <= |text| && text[at..at + |pages[i]|] == pages[i]
    requires i + 1 < |pages| ==>
      at + |pages[i]| + |PageSeparator| <= |text| && text[at + |pages[i]|..at + |pages[i]| + |PageSeparator|] == PageSeparator
    ensures PageAt(pages, i, text)
  {
    if i + 1 < |pages| {
      var end := at + |pages[i]|;
      assert text[end..end + |PageSeparator|][0] == text[end];
    }
  }

  /** No images give the empty text; `n > 0` images give their texts plus
      exactly `n - 1` separators. */
  lemma ImagesTextLength(images: seq<Bytes>, ocr: Bytes -> Option<string>)
    requires ImagesText(images, ocr).Success?
    ensures |images| == 0 ==> ImagesText(images, ocr).value == ""
    ensures |images| > 0 ==>
      |ImagesText(images, ocr).value| == SumLengths(OcrPages(images, ocr).value) + |images| - 1
  {
    JoinLength(OcrPages(images, ocr).value, PageSeparator);
  }

  /** Any page that cannot be read fails the whole extraction: no partial text. */
  lemma ImagesTextAllOrNothing(images: seq<Bytes>, ocr: Bytes -> Option<string>, k: nat)
    requires k < |images| && ocr(images[k]).None?
    ensures ImagesText(images, ocr) == Failure(ImageUnreadable)
  {
  }

  /** An image upload is read like a one-page document: one OCR call, nothing joined. */
  lemma ImageIsOnePage(file: Bytes, contentType: string, eng: Engines)
    requires contentType == JpegType || contentType == PngType
    ensures Extracted(file, contentType, eng) == ImagesText([file], eng.ocr)
  {
    assert [file][..0] == [];
  }

  /** A Word upload is read exactly like the PDF it converts to. */
  lemma WordIsConvertedPdf(file: Bytes, contentType: string, eng: Engines)
    requires contentType == DocxType || contentType == DocType
    requires eng.convert(file).Some?
    ensures Extracted(file, contentType, eng) == Extracted(eng.convert(file).value, PdfType, eng)
  {
  }

  /** Every other content type, "text/plain" included, is rejected. */
  lemma UnsupportedRejected(file: Bytes, contentType: string, eng: Engines)
    requires contentType !in ExtractableTypes
    ensures Extracted(file, contentType, eng) == Failure(UnsupportedFileType(contentType))
  {
  }
}
