/**
 * components/dashboards/StudentDashboard.js: the student's document list,
 * with upload (one document per chosen file, typed by its MIME type) and
 * deletion, and the icon chosen for each document type.
 */
module StudentDashboard {
  import opened Wrappers
  import opened Text
  import opened Numbers
  import opened Sequences

  datatype DocType = Pdf | Image | OtherDocument

  /** A portfolio document. `size` is the label shown, such as "2.4 MB". */
  datatype Document = Document(id: string, name: string, docType: DocType, size: string, uploadDate: string)

  /** What the browser reports for a chosen file; `size` is in bytes. */
  datatype UploadedFile = UploadedFile(name: string, mimeType: string, size: nat)

  /** The documents the dashboard starts with. */
  const InitialDocuments: seq<Document> := [
    Document("1", "Academic Certificate.pdf", Pdf, "2.4 MB", "2024-01-15"),
    Document("2", "ID Card.jpg", Image, "1.2 MB", "2024-01-10")
  ]

  // ------------------------------------------------------------ type

  /** The document type of a MIME type: "image" anywhere wins, then "pdf", else a plain document. */
  function Classify(mime: string): (t: DocType)
    ensures t == Image <==> Contains(mime, "image")
    ensures t == Pdf <==> !Contains(mime, "image") && Contains(mime, "pdf")
    ensures t == OtherDocument <==> !Contains(mime, "image") && !Contains(mime, "pdf")
  {
    if Contains(mime, "image") then Image else if Contains(mime, "pdf") then Pdf else OtherDocument
  }

  /** An image MIME type. */
  lemma ClassifyImage()
    ensures Classify("image/png") == Image
  {
    assert OccursAt("image/png", "image", 0);
    ContainsAt("image/png", "image");
  }

  /** A PDF MIME type. */
  lemma ClassifyPdf(mime: string)
    requires mime == "application/pdf"
    ensures Classify(mime) == Pdf
  {
    assert !Contains(mime, "image") by {
      MissingCharNotContained(mime, "image", 'm');
    }
    assert Contains(mime, "pdf") by {
      assert OccursAt(mime, "pdf", 12);
      ContainsAt(mime, "pdf");
    }
  }

  /** A type naming both is an image: the image test comes first. */
  lemma ClassifyImageFirst()
    ensures Classify("image/pdf") == Image
  {
    assert OccursAt("image/pdf", "image", 0);
    ContainsAt("image/pdf", "image");
  }

  /** Any other MIME type is a plain document. */
  lemma ClassifyOther(mime: string)
    requires mime == "text/plain"
    ensures Classify(mime) == OtherDocument
  {
    MissingCharNotContained(mime, "image", 'm');
    MissingCharNotContained(mime, "pdf", 'd');
  }

  datatype FileIcon = ImageFileIcon | TextFileIcon

  /** `getFileIcon`: the image icon for images, the text icon for everything else. */
  function FileIconFor(t: DocType): (icon: FileIcon)
    ensures icon == ImageFileIcon <==> t == Image
  {
    match t
    case Image => ImageFileIcon
    case _ => TextFileIcon
  }

  // ------------------------------------------------------------ size

  /** One MiB: the size in bytes divided twice by 1024. */
  const Mebibyte: nat := 1048576

  /**
   * The size in tenths of a MiB, as `toFixed(1)` rounds it: to the nearest
   * tenth, a tie going up. Dividing by a power of two is exact in a double,
   * so the rounding sees the exact quotient.
   */
  function SizeTenths(bytes: nat): (n: nat)
    ensures n * Mebibyte - 10 * bytes <= Mebibyte / 2
    ensures 10 * bytes - n * Mebibyte < Mebibyte / 2
  {
    (10 * bytes + Mebibyte / 2) / Mebibyte
  }

  /** The size label: the size in MiB to one decimal, then " MB". */
  function SizeLabel(bytes: nat): (text: string)
    ensures |text| >= 6
    ensures text[|text| - 5] == '.' && text[|text| - 3..] == " MB"
    ensures IsDecimalDigit(text[|text| - 4])
    ensures forall i :: 0 <= i < |text| - 5 ==> IsDecimalDigit(text[i])
    ensures |text| > 6 ==> text[0] != '0'
  {
    var n := SizeTenths(bytes);
    NatToStringLeading(n / 10);
    NatToString(n / 10) + ("." + ([DigitChar(n % 10)] + " MB"))
  }

  /**
   * The label reads back as the rounded size: its whole part is what
   * `parseInt` finds at its start, and its one decimal is the tenths digit.
   */
  lemma SizeLabelValue(bytes: nat)
    ensures ParseInt(SizeLabel(bytes)) == Some(SizeTenths(bytes) / 10)
    ensures DigitValue(SizeLabel(bytes)[|SizeLabel(bytes)| - 4], 10) == Some(SizeTenths(bytes) % 10)
  {
    var n := SizeTenths(bytes);
    var rest := "." + ([DigitChar(n % 10)] + " MB");
    var text := SizeLabel(bytes);
    assert text == NatToString(n / 10) + rest;
    ParseIntNatToStringThen(n / 10, rest);
    assert text[|text| - 4] == DigitChar(n % 10) by {
      assert text[|text| - 4] == rest[1];
    }
    DigitValueOfChar(n % 10);
  }

  /** The labels of the two initial documents come from these byte counts. */
  lemma SizeLabelExamples(certificate: nat, idCard: nat, empty: nat)
    requires certificate == 2516582 && idCard == 1258291 && empty == 0
    ensures SizeLabel(certificate) == "2.4 MB"
    ensures SizeLabel(idCard) == "1.2 MB"
    ensures SizeLabel(empty) == "0.0 MB"
  {
    assert SizeTenths(certificate) == 24;
    assert SizeTenths(idCard) == 12;
    assert SizeTenths(empty) == 0;
  }

  // ------------------------------------------------------------ date

  /**
   * The date part of an ISO timestamp, `split('T')[0]`: the longest prefix
   * without a 'T', so a 'T' follows it unless it is the whole text.
   */
  function UploadDate(iso: string): (date: string)
    ensures |date| <= |iso| && date == iso[..|date|]
    ensures 'T' !in date
    ensures |date| < |iso| ==> iso[|date|] == 'T'
  {
    SplitFirst(iso, 'T');
    Split(iso, 'T')[0]
  }

  /** A timestamp as `toISOString` writes it gives its date. */
  lemma UploadDateExample()
    ensures UploadDate("2024-01-20T09:30:00.000Z") == "2024-01-20"
  {
    assert "2024-01-20T09:30:00.000Z" == "2024-01-20" + ['T'] + "09:30:00.000Z";
    SplitAtFirstSep("2024-01-20", 'T', "09:30:00.000Z");
  }

  // ------------------------------------------------------------ upload

  /** The document made for one file; `id` and the ISO timestamp `iso` stand for the clock readings. */
  function NewDocument(id: string, file: UploadedFile, iso: string): (d: Document)
    ensures d.id == id && d.name == file.name
    ensures d.docType == Classify(file.mimeType)
    ensures d.size == SizeLabel(file.size) && d.uploadDate == UploadDate(iso)
  {
    Document(id, file.name, Classify(file.mimeType), SizeLabel(file.size), UploadDate(iso))
  }

  /** One new document per file, in file order. */
  function NewDocuments(files: seq<UploadedFile>, ids: seq<string>, isos: seq<string>): (docs: seq<Document>)
    requires |ids| == |files| && |isos| == |files|
    ensures |docs| == |files|
    ensures forall i :: 0 <= i < |files| ==> docs[i] == NewDocument(ids[i], files[i], isos[i])
  {
    seq(|files|, i requires 0 <= i < |files| => NewDocument(ids[i], files[i], isos[i]))
  }

  /** Taking one more file adds its document at the end. */
  lemma NewDocumentsSnoc(files: seq<UploadedFile>, ids: seq<string>, isos: seq<string>, i: nat)
    requires |ids| == |files| && |isos| == |files| && i < |files|
    ensures NewDocuments(files[..i + 1], ids[..i + 1], isos[..i + 1])
         == NewDocuments(files[..i], ids[..i], isos[..i]) + [NewDocument(ids[i], files[i], isos[i])]
  {
    var longer := NewDocuments(files[..i + 1], ids[..i + 1], isos[..i + 1]);
    var shorter := NewDocuments(files[..i], ids[..i], isos[..i]);
    assert forall k :: 0 <= k < i ==> longer[k] == shorter[k];
  }

  /** `deleteDocument`'s new list: the documents with that id gone, the others kept in order and multiplicity. */
  function WithoutDocument(docs: seq<Document>, id: string): (r: seq<Document>)
    ensures IsSubsequence(r, docs)
    ensures forall d :: d in r <==> d in docs && d.id != id
    ensures forall d :: (multiset(r)[d] == if d.id != id then multiset(docs)[d] else 0)
    decreases |docs|
  {
    if |docs| == 0 then []
    else
      assert docs == [docs[0]] + docs[1..];
      if docs[0].id != id then [docs[0]] + WithoutDocument(docs[1..], id)
      else WithoutDocument(docs[1..], id)
  }

  /** Deleting an id no document has is a no-op. */
  lemma {:induction false} DeleteAbsentDocument(docs: seq<Document>, id: string)
    requires forall d :: d in docs ==> d.id != id
    ensures WithoutDocument(docs, id) == docs
    decreases |docs|
  {
    if |docs| > 0 {
      assert docs[0] in docs;
      assert forall d :: d in docs[1..] ==> d in docs;
      DeleteAbsentDocument(docs[1..], id);
    }
  }

  /** The dashboard's document state. */
  class DocumentList {
    var documents: seq<Document>

    constructor ()
      ensures documents == InitialDocuments
    {
      documents := InitialDocuments;
    }

    /**
     * `handleFileUpload`: without a file list nothing changes; otherwise each
     * file, in order, appends one document. `ids[i]` and `isos[i]` are the
     * clock readings taken for file `i`.
     */
    method FileUpload(files: Option<seq<UploadedFile>>, ids: seq<string>, isos: seq<string>)
      requires files.Some? ==> |ids| == |files.value| && |isos| == |files.value|
      modifies this
      ensures files.None? ==> documents == old(documents)
      ensures files.Some? ==> documents == old(documents) + NewDocuments(files.value, ids, isos)
    {
      if files.Some? {
        var fs := files.value;
        var i := 0;
        while i < |fs|
          invariant 0 <= i <= |fs|
          invariant documents == old(documents) + NewDocuments(fs[..i], ids[..i], isos[..i])
        {
          var doc := NewDocument(ids[i], fs[i], isos[i]);
          NewDocumentsSnoc(fs, ids, isos, i);
          documents := documents + [doc];
          i := i + 1;
        }
        assert fs[..i] == fs && ids[..i] == ids && isos[..i] == isos;
      }
    }

    /** `deleteDocument` */
    method DeleteDocument(id: string)
      modifies this
      ensures documents == WithoutDocument(old(documents), id)
    {
      documents := WithoutDocument(documents, id);
    }
  }
}
