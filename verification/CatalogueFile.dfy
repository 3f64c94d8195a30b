/** From the rows of a catalogue through the written PDF to the stored drafts. */
module CatalogueFile {
  import opened Common
  import opened CatalogueText
  import opened Catalogue
  import PdfWriter
  import PdfReader
  import PdfStrings
  import PdfDocument

  const TITLE := "Supplier B Catalogue"

  /** `pdf_lines` */
  function CatalogueLines(rows: seq<Row>): (r: seq<string>)
    ensures |r| == |rows| + 1
  {
    [TITLE] + seq(|rows|, i requires 0 <= i < |rows| => PrintRow(rows[i]))
  }

  /** The text of a file: every shown string on a line of its own. */
  function TextOf(texts: seq<Option<string>>): string {
    if texts == [] then ""
    else (if texts[0].Some? then texts[0].value else "") + "\n" + TextOf(texts[1..])
  }

  /** A row that is printed on one line and read back. */
  predicate Printable(r: Row) {
    Tidy(r) && OneLine(PrintRow(r)) && Contains(PrintRow(r), "NST-") && !HasLoneI(PrintRow(r))
  }

  lemma {:induction false} TextOfKept(lines: seq<string>, texts: seq<Option<string>>)
    requires |texts| == |lines| && forall i :: 0 <= i < |lines| ==> texts[i] == Some(lines[i])
    ensures TextOf(texts) == Lines(lines)
  {
    if lines != [] {
      TextOfKept(lines[1..], texts[1..]);
    }
  }

  lemma NoReturn(s: string)
    requires OneLine(s)
    ensures '\r' !in s
  {
  }

  /** The accepted lines of a catalogue: one for each row, from line 2 on. */
  function EntriesOf(rows: seq<Row>): (r: seq<Entry>)
    ensures |r| == |rows|
  {
    seq(|rows|, i requires 0 <= i < |rows| => Entry(i + 2, PartsOfRow(rows[i])))
  }

  lemma {:induction false} LinesAreEntries(rows: seq<Row>)
    requires forall i :: 0 <= i < |rows| ==> Printable(rows[i])
    ensures Entries(CatalogueLines(rows)) == EntriesOf(rows)
  {
    hide ParseLine, PrintRow, PartsOfRow, Tidy, OneLine, Contains, HasLoneI;
    var lines := CatalogueLines(rows);
    var n := |lines| - 1;
    if rows == [] {
      assert lines[..n] == [];
      TitleIsSkipped();
    } else {
      var init, r := rows[..|rows| - 1], rows[|rows| - 1];
      assert lines[..n] == CatalogueLines(init);
      LinesAreEntries(init);
      RowReadsBack(r);
      assert EntriesOf(rows) == EntriesOf(init) + [Entry(|rows| + 1, PartsOfRow(r))];
    }
  }

  lemma TitleIsSkipped()
    ensures ParseLine(TITLE).None? && OneLine(TITLE)
  {
    hide PartsOf, Contains;
    assert forall i :: 0 <= i < |TITLE| ==> TITLE[i] == ' ' || 'A' <= TITLE[i] <= 'z';
  }

  /**
   A catalogue written as a PDF, read by the rules of ISO 32000-1 and parsed again gives one
   accepted line for each row, with the fields of the row.
   */
  lemma CatalogueReadsBack(rows: seq<Row>)
    requires forall i :: 0 <= i < |rows| ==> Printable(rows[i])
    requires PdfDocument.Fits(CatalogueLines(rows))
    ensures var file := PdfReader.ReadText(PdfWriter.Document(CatalogueLines(rows)));
            file.Some? && Entries(SplitLines(TextOf(PdfDocument.Texts(file.value)))) == EntriesOf(rows)
  {
    hide PdfReader.ReadText, PdfWriter.Document, PdfDocument.Texts, PrintRow, PartsOfRow, Entries, SplitLines, EntriesOf, Tidy, Contains, HasLoneI,
      PdfDocument.Fits, OneLine;
    var lines := CatalogueLines(rows);
    TitleIsSkipped();
    forall i | 0 <= i < |lines|
      ensures OneLine(lines[i]) && '\r' !in lines[i]
    {
      if i > 0 {
        assert Printable(rows[i - 1]);
      }
      NoReturn(lines[i]);
    }
    PdfDocument.LinesAreKept(lines);
    var file := PdfReader.ReadText(PdfWriter.Document(lines));
    TextOfKept(lines, PdfDocument.Texts(file.value));
    SplitLinesReadsBack(lines);
    LinesAreEntries(rows);
  }

  /** The drafts stored from the written file: each row's fields arrive, the price a hundredfold. */
  lemma CatalogueIsStored(rows: seq<Row>, source: string, k: nat)
    requires forall i :: 0 <= i < |rows| ==> Printable(rows[i])
    requires PdfDocument.Fits(CatalogueLines(rows))
    requires k < |rows| && rows[k].sku != "" && forall i :: k < i < |rows| ==> rows[i].sku != rows[k].sku
    ensures var file := PdfReader.ReadText(PdfWriter.Document(CatalogueLines(rows)));
            file.Some?
            && var t := IngestAll(EMPTY, Entries(SplitLines(TextOf(PdfDocument.Texts(file.value)))), source);
            var found := Find(t.rows, rows[k].sku);
            found.Some? && found.value.title == OrNone(rows[k].title) && found.value.price == Some(rows[k].price * 100)
            && found.value.currency == Some("INR") && found.value.colour == rows[k].colour && found.value.size == rows[k].size
            && found.value.material == rows[k].material && found.value.image == rows[k].image
            && (DUPLICATE in found.value.errors <==> exists i :: 0 <= i < k && rows[i].sku == rows[k].sku)
  {
    hide PdfReader.ReadText, PdfWriter.Document, PdfDocument.Texts, Entries, SplitLines, TextOf, Printable, PdfDocument.Fits, IngestAll, Find, PriceOf,
      DigitsOf;
    CatalogueReadsBack(rows);
    var es, sku := EntriesOf(rows), rows[k].sku;
    FoldsToExpected(es, source);
    LastOwn(es, sku, k);
    PriceReadsBack(rows[k].price);
    Priced(rows[k].price);
    MarkedIffTwice(es, sku, source);
    var t := IngestAll(EMPTY, es, source);
    assert Find(t.rows, sku) == Some(Expected(es, sku, source));
    if i, j :| 0 <= i < j < |es| && es[i].parts.sku == sku && es[j].parts.sku == sku {
      assert rows[i].sku == sku && rows[j].sku == sku && j <= k;
      assert i < k;
    }
    if i :| 0 <= i < k && rows[i].sku == sku {
      assert es[i].parts.sku == sku && es[k].parts.sku == sku;
    }
  }

  lemma Priced(n: nat)
    ensures DigitsOf(PriceText(n)) != ""
  {
    PriceReadsBack(n);
  }

  lemma {:induction false} LastOwn(es: seq<Entry>, sku: string, k: nat)
    requires k < |es| && es[k].parts.sku == sku && forall i :: k < i < |es| ==> es[i].parts.sku != sku
    ensures Own(es, sku) != [] && Own(es, sku)[|Own(es, sku)| - 1] == es[k]
  {
    if k < |es| - 1 {
      LastOwn(es[..|es| - 1], sku, k);
    }
  }
}
