/**
 * The name offered for the processed document (`getOutputFilename`) and
 * the name of the document a run is about (`primaryFilename` in `onSubmit`).
 */
module Naming {
  import opened Text
  import opened Dispatch

  const PdfExtension := ".pdf"

  /** `originalName.replace('.pdf', '')`: the FIRST ".pdf", wherever it stands, is removed; case matters. */
  function BaseName(originalName: string): string {
    RemoveFirst(originalName, PdfExtension)
  }

  predicate EndsWithPdf(s: string) {
    |s| >= |PdfExtension| && s[|s| - |PdfExtension|..] == PdfExtension
  }

  /**
   * The download name for a finished run. `operation` is the operation's
   * string, so a value other than the three tab names reaches the default
   * branch; `now` stands for `Date.now()`.
   */
  function OutputFilename(originalName: string, operation: string, range: SplitRange, now: nat): (r: string)
    ensures EndsWithPdf(r)
  {
    var base := BaseName(originalName);
    if operation == "compress" then base + "-compressed.pdf"
    else if operation == "merge" then "merged-" + NatToString(now) + ".pdf"
    else if operation == "split" then base + "-split-" + range.startPage + "-" + range.endPage + ".pdf"
    else base + "-processed.pdf"
  }

  /** `files[0]?.filename || 'output.pdf'`: an absent or empty first name falls back. */
  function PrimaryFilename(files: seq<Staged>): (r: string)
    ensures r != []
    ensures files != [] && files[0].filename != "" ==> r == files[0].filename
    ensures files == [] || files[0].filename == "" ==> r == "output.pdf"
  {
    if files != [] && files[0].filename != "" then files[0].filename else "output.pdf"
  }

  /** ".pdf" does not overlap itself, so no occurrence can start inside `pre` and run into the one after it. */
  lemma NoOccurrenceBefore(pre: string, post: string)
    requires !Contains(pre, PdfExtension)
    ensures forall j :: 0 <= j < |pre| ==> !OccursAt(pre + PdfExtension + post, PdfExtension, j)
  {
    var s := pre + PdfExtension + post;
    forall j | 0 <= j < |pre| ensures !OccursAt(s, PdfExtension, j) {
      if j + 4 <= |pre| {
        assert s[j..j + 4] == pre[j..j + 4];
        assert !OccursAt(pre, PdfExtension, j);
      } else if j + 4 <= |s| {
        // the '.' at index |pre| would have to be one of "pdf"
        assert s[|pre|] == '.';
        assert s[j..j + 4][|pre| - j] == '.';
        assert PdfExtension[|pre| - j] != '.';
      }
    }
  }

  /** Only the first ".pdf" is removed, with everything around it kept: "a.pdf.b.pdf" becomes "a.b.pdf". */
  lemma BaseNameRemovesFirst(pre: string, post: string)
    requires !Contains(pre, PdfExtension)
    ensures BaseName(pre + PdfExtension + post) == pre + post
  {
    NoOccurrenceBefore(pre, post);
    RemoveFirstAt(pre, PdfExtension, post);
  }

  /** A name ending in its only ".pdf" loses exactly that extension. */
  lemma BaseNameStripsExtension(stem: string)
    requires !Contains(stem, PdfExtension)
    ensures BaseName(stem + PdfExtension) == stem
  {
    BaseNameRemovesFirst(stem, "");
    assert stem + PdfExtension + "" == stem + PdfExtension;
  }

  /** A name without ".pdf" (for instance "REPORT.PDF") is kept whole. */
  lemma BaseNameKeepsOtherNames(name: string)
    requires !Contains(name, PdfExtension)
    ensures BaseName(name) == name
  {
    RemoveFirstAbsent(name, PdfExtension);
  }

  /**
   * The name for each operation, for a document whose name ends in its only
   * ".pdf": compress appends "-compressed", split the typed range, any other
   * operation string "-processed"; merge ignores the name and uses the time.
   */
  lemma OutputFilenameByOperation(stem: string, range: SplitRange, now: nat, other: string)
    requires !Contains(stem, PdfExtension)
    requires other != "compress" && other != "merge" && other != "split"
    ensures OutputFilename(stem + PdfExtension, "compress", range, now) == stem + "-compressed.pdf"
    ensures OutputFilename(stem + PdfExtension, "split", range, now) == stem + "-split-" + range.startPage + "-" + range.endPage + ".pdf"
    ensures OutputFilename(stem + PdfExtension, other, range, now) == stem + "-processed.pdf"
    ensures forall name :: OutputFilename(name, "merge", range, now) == "merged-" + NatToString(now) + ".pdf"
  {
    BaseNameStripsExtension(stem);
  }

  /** A name without a '.' holds no ".pdf". */
  lemma NoDotNoExtension(name: string)
    requires '.' !in name
    ensures !Contains(name, PdfExtension)
  {
    forall i | 0 <= i <= |name| - |PdfExtension| ensures !OccursAt(name, PdfExtension, i) {
      assert name[i] in name;
    }
  }

  /** "report" holds no ".pdf", so "report.pdf" loses exactly its extension. */
  lemma ReportBaseName()
    ensures BaseName("report.pdf") == "report"
  {
    NoDotNoExtension("report");
    BaseNameStripsExtension("report");
    assert "report" + PdfExtension == "report.pdf";
  }

  /** "report.pdf" compresses to "report-compressed.pdf". */
  lemma ReportCompressed(now: nat)
    ensures OutputFilename("report.pdf", Compress.Name(), EmptyRange, now) == "report-compressed.pdf"
  {
    ReportBaseName();
    assert "report" + "-compressed.pdf" == "report-compressed.pdf";
  }

  /** "report.pdf" split over pages 2 to 9 gives "report-split-2-9.pdf". */
  lemma ReportSplit(now: nat)
    ensures OutputFilename("report.pdf", Split.Name(), SplitRange("2", "9"), now) == "report-split-2-9.pdf"
  {
    ReportBaseName();
    assert "report" + "-split-" + "2" + "-" + "9" + ".pdf" == "report-split-2-9.pdf" by {
      assert "report" + "-split-" == "report-split-";
      assert "report-split-" + "2" == "report-split-2";
      assert "report-split-2" + "-" == "report-split-2-";
      assert "report-split-2-" + "9" == "report-split-2-9";
      assert "report-split-2-9" + ".pdf" == "report-split-2-9.pdf";
    }
  }
}
