/** The written file, read back. */
module PdfDocument {
  import opened Common
  import opened Utf8
  import opened Decimal
  import opened PdfWriter
  import opened PdfSyntax
  import opened PdfReader
  import opened PdfLexing
  import opened PdfStrings
  import opened PdfObjects
  import opened PdfPages
  import opened PdfTable
  import PdfContent

  /** Every offset fits its ten digits. */
  predicate Fits(lines: seq<string>) {
    AllFit(Offsets(AllObjects(lines)))
  }

  /** The table the reader finds. */
  function Table(lines: seq<string>): seq<XrefEntry> {
    [FREE] + TableOf(Offsets(AllObjects(lines)))
  }

  function FileOf(lines: seq<string>): Source {
    Source(Document(lines), Table(lines))
  }

  lemma {:induction false} OffsetsGrow(objects: seq<string>, i: nat, j: nat)
    requires i <= j <= |objects|
    ensures EndOf(objects[..i]) <= EndOf(objects[..j])
    decreases j
  {
    hide Encode;
    if i < j {
      OffsetsGrow(objects, i, j - 1);
      assert objects[..j][..j - 1] == objects[..j - 1];
    }
  }

  /** All offsets fit exactly when the last object's does. */
  lemma FitsIffLastFits(lines: seq<string>)
    ensures var objects := AllObjects(lines);
            Fits(lines) <==> EndOf(objects[..|objects| - 1]) < 10_000_000_000
  {
    hide EndOf, AllObjects;
    ObjectsAt(lines);
    var objects := AllObjects(lines);
    var n := |objects|;
    assert Offsets(objects)[n - 1] == EndOf(objects[..n - 1]);
    forall i | 0 <= i < n
      ensures Offsets(objects)[i] <= Offsets(objects)[n - 1]
    {
      OffsetsGrow(objects, i, n - 1);
    }
  }

  // ----- Objects -----------------------------------------------------------------------

  lemma {:induction false} PageObjectsAt(lines: seq<string>, n: nat, k: nat)
    requires k < n <= PageCount(lines)
    ensures PageObjects(lines, n)[2 * k] == StreamObject(ContentId(k), Stream(Chunk(lines, k)))
    ensures PageObjects(lines, n)[2 * k + 1] == PageObject(PageId(k), 3, ContentId(k))
  {
    hide StreamObject, PageObject, Stream, Chunk;
    if k < n - 1 {
      PageObjectsAt(lines, n - 1, k);
    }
  }

  /** Object numbers are positions: object `k + 1` is the `k`-th of the body. */
  lemma ObjectsAt(lines: seq<string>)
    ensures var n := PageCount(lines);
            var objects := AllObjects(lines);
            |objects| == 2 * n + 3
            && objects[0] == CATALOG && objects[1] == PagesObject(PageIds(n)) && objects[2] == FONT
            && forall k :: 0 <= k < n ==>
                 objects[ContentId(k) - 1] == StreamObject(ContentId(k), Stream(Chunk(lines, k)))
                 && objects[PageId(k) - 1] == PageObject(PageId(k), 3, ContentId(k))
  {
    hide StreamObject, PageObject, Stream, Chunk, PagesObject, PageIds, PageObjects;
    var n, objects := PageCount(lines), AllObjects(lines);
    forall k | 0 <= k < n
      ensures objects[ContentId(k) - 1] == StreamObject(ContentId(k), Stream(Chunk(lines, k)))
      ensures objects[PageId(k) - 1] == PageObject(PageId(k), 3, ContentId(k))
    {
      PageObjectsAt(lines, n, k);
    }
  }

  /** Seeking to an object's entry lands on the object's bytes. */
  lemma SeekLands(lines: seq<string>, num: nat)
    requires 1 <= num <= |AllObjects(lines)|
    ensures num < |Table(lines)| && Table(lines)[num].inUse && Table(lines)[num].offset <= |Document(lines)|
    ensures Encode(AllObjects(lines)[num - 1]) <= Document(lines)[Table(lines)[num].offset..]
  {
    hide Encode, AllObjects, Tail, Document, Body, EndOf;
    var objects := AllObjects(lines);
    DocumentParts(lines);
    var tail := Tail(Offsets(objects), |Body(objects)|);
    ObjectStarts(objects, tail, num - 1);
    assert Table(lines)[num] == XrefEntry(EndOf(objects[..num - 1]), 0, true);
  }

  /** Every entry of the table leads to the bytes `k 0 obj` of its own number. */
  lemma SeekLandsOnHead(lines: seq<string>, num: nat)
    requires 1 <= num < |Table(lines)|
    ensures Table(lines)[num].offset <= |Document(lines)|
    ensures Dec(num) + " 0 obj" <= Document(lines)[Table(lines)[num].offset..]
  {
    hide Encode, AllObjects, Document, StreamObject, PageObject, CATALOG, FONT, PagesObject, ContentId, PageId, Dec;
    SeekLands(lines, num);
    ObjectsAt(lines);
    var text := AllObjects(lines)[num - 1];
    HeadOf(lines, num);
    NumeralIsAscii(num);
    var head := Dec(num) + " 0 obj";
    EncodeAscii(head);
    EncodeAppend(head, text[|head|..]);
    assert text == head + text[|head|..];
  }

  lemma HeadPrefix(id: string, rest: string)
    ensures id + " 0 obj" <= id + " 0 obj\n" + rest
  {
    assert " 0 obj\n" == " 0 obj" + "\n";
  }

  lemma StreamHead(id: nat, stream: string)
    ensures Dec(id) + " 0 obj" <= StreamObject(id, stream)
  {
    hide Encode, Dec;
    var dict := "<< /Length " + Dec(|Encode(stream)|) + " >>";
    HeadPrefix(Dec(id), dict + "\nstream\n" + stream + "\nendstream\nendobj\n");
  }

  lemma PageHead(id: nat, font: nat, content: nat)
    ensures Dec(id) + " 0 obj" <= PageObject(id, font, content)
  {
    hide Dec, Plain, Show, PageObject, PageEntries;
    PageText(id, font, content);
    var o := Dict(PageEntries(font, content));
    HeadPrefix(Dec(id), Show(o) + "\n" + "endobj" + "\n");
  }

  lemma FirstHeads(pages: seq<nat>)
    ensures Dec(1) + " 0 obj" <= CATALOG && Dec(2) + " 0 obj" <= PagesObject(pages) && Dec(3) + " 0 obj" <= FONT
  {
    hide Dec, Plain, Show, PagesObject, PagesEntries, CATALOG_ENTRIES, FONT_ENTRIES, CATALOG, FONT;
    CatalogText();
    HeadPrefix(Dec(1), Show(Dict(CATALOG_ENTRIES)) + "\n" + "endobj" + "\n");
    PagesText(pages);
    HeadPrefix(Dec(2), Show(Dict(PagesEntries(pages))) + "\n" + "endobj" + "\n");
    FontText();
    HeadPrefix(Dec(3), Show(Dict(FONT_ENTRIES)) + "\n" + "endobj" + "\n");
  }

  lemma HeadOf(lines: seq<string>, num: nat)
    requires 1 <= num <= |AllObjects(lines)|
    ensures Dec(num) + " 0 obj" <= AllObjects(lines)[num - 1]
  {
    hide Encode, AllObjects, Stream, Join, Refs, Dec, Chunk, StreamObject, PageObject;
    ObjectsAt(lines);
    Digits();
    FirstHeads(PageIds(PageCount(lines)));
    if num > 3 {
      var k := (num - 4) / 2;
      assert num == ContentId(k) || num == PageId(k);
      StreamHead(ContentId(k), Stream(Chunk(lines, k)));
      PageHead(PageId(k), 3, ContentId(k));
    }
  }

  lemma IndirectIsAscii(id: nat, o: Obj, stop: string)
    requires Plain(o) && IsAscii(stop)
    ensures Encode(ShowIndirect(id, o, stop)) == ShowIndirect(id, o, stop)
  {
    hide Show, Plain, Dec, Encode;
    ShownIsAscii(o);
    NumeralIsAscii(id);
    EncodeAscii(ShowIndirect(id, o, stop));
  }

  /** An object of the body is fetched by its number. */
  lemma Fetches(lines: seq<string>, num: nat, o: Obj, stop: string, tail: string) returns (after: string)
    requires 1 <= num <= |AllObjects(lines)| && Plain(o)
    requires stop == "endobj" || stop == "stream"
    requires tail != "" && tail[0] == '\n'
    requires AllObjects(lines)[num - 1] == ShowIndirect(num, o, stop) + tail
    ensures Fetch(FileOf(lines), num) == Some(Indirect(o, TWord(stop), Encode(tail) + after))
  {
    hide Encode, AllObjects, Document, Table, ShowIndirect, Plain, ReadIndirect;
    SeekLands(lines, num);
    var here := Document(lines)[Table(lines)[num].offset..];
    after := here[|Encode(AllObjects(lines)[num - 1])|..];
    EncodeAppend(ShowIndirect(num, o, stop), tail);
    IndirectIsAscii(num, o, stop);
    HeadOfTail(tail);
    assert here == Encode(AllObjects(lines)[num - 1]) + after;
    assert here == ShowIndirect(num, o, stop) + (Encode(tail) + after);
    ReadsBack(num, o, stop, Encode(tail) + after);
  }

  lemma HeadOfTail(tail: string)
    requires tail != "" && tail[0] == '\n'
    ensures Encode(tail) != "" && Encode(tail)[0] == '\n'
  {
  }

  lemma FetchesValue(lines: seq<string>, num: nat, o: Obj, text: string)
    requires 1 <= num <= |AllObjects(lines)| && Plain(o)
    requires AllObjects(lines)[num - 1] == text && text == ShowIndirect(num, o, "endobj") + "\n"
    ensures Fetch(FileOf(lines), num).Some? && Fetch(FileOf(lines), num).value.value == o
  {
    hide AllObjects, Fetch, FileOf, ShowIndirect, Encode, Plain;
    var _ := Fetches(lines, num, o, "endobj", "\n");
  }

  // ----- Pages -------------------------------------------------------------------------

  lemma LookUpCons(p: Pair, rest: seq<Pair>, key: string)
    ensures LookUp([p] + rest, key) == if p.key == key then Some(p.value) else LookUp(rest, key)
  {
    assert ([p] + rest)[1..] == rest;
  }

  lemma PageEntriesLookUp(font: nat, content: nat)
    ensures var o := Dict(PageEntries(font, content));
            Get(o, "Type") == Some(Name("Page")) && Get(o, "Parent") == Some(Reference(2, 0))
            && Get(o, "Resources") == Some(Resources(font)) && Get(o, "MediaBox") == Some(BOX)
            && Get(o, "Contents") == Some(Reference(content, 0))
  {
    hide LookUp;
    var a, b := Pair("Type", Name("Page")), Pair("Parent", Reference(2, 0));
    var c, d, e := Pair("Resources", Resources(font)), Pair("MediaBox", BOX), Pair("Contents", Reference(content, 0));
    assert PageEntries(font, content) == [a] + [b, c, d, e] && [b, c, d, e] == [b] + [c, d, e];
    assert [c, d, e] == [c] + [d, e] && [d, e] == [d] + [e] && [e] == [e] + [];
    forall key: string
      ensures LookUp(PageEntries(font, content), key)
              == if key == "Type" then Some(a.value) else if key == "Parent" then Some(b.value)
                 else if key == "Resources" then Some(c.value) else if key == "MediaBox" then Some(d.value)
                 else if key == "Contents" then Some(e.value) else LookUp([], key)
    {
      LookUpCons(a, [b, c, d, e], key);
      LookUpCons(b, [c, d, e], key);
      LookUpCons(c, [d, e], key);
      LookUpCons(d, [e], key);
      LookUpCons(e, [], key);
    }
  }

  lemma FontResolves(lines: seq<string>, page: Obj)
    requires Get(page, "Resources") == Some(Resources(3))
    ensures FontsResolve(FileOf(lines), page)
  {
    hide AllObjects, Fetch, FileOf, ShowIndirect, Encode, Plain, FONT;
    ObjectsAt(lines);
    FontText();
    FetchesValue(lines, 3, Dict(FONT_ENTRIES), FONT);
    assert LookUp(FONT_ENTRIES, "Type") == Some(Name("Font"));
    var fonts := [Pair("F1", Reference(3, 0))];
    assert LookUp(fonts, "F1") == Some(Reference(3, 0));
    assert Get(Resources(3), "Font") == Some(Dict(fonts));
    assert Follow(FileOf(lines), Dict(fonts), "F1") == Fetch(FileOf(lines), 3);
  }

  lemma SkipOne(data: string)
    ensures SkipEol("\n" + data) == data
  {
    var bs := "\n" + data;
    assert bs[0] == '\n' && bs[1..] == data;
    if |bs| >= 2 {
      assert bs[..2][0] == '\n';
    }
  }

  lemma StreamReads(stream: string, o: Indirect, after: string)
    requires o == Indirect(Dict(StreamEntries(stream)), TWord("stream"), Encode(StreamTail(stream)) + after)
    ensures StreamData(o) == Some(Encode(stream))
  {
    hide Encode, Lex, SkipEol;
    var mark := "\nendstream\nendobj\n";
    EncodeAppend("\n" + stream, mark);
    EncodeAppend("\n", stream);
    EncodeAscii("\n");
    EncodeAscii(mark);
    var data := Encode(stream) + (mark + after);
    assert StreamTail(stream) == "\n" + stream + mark;
    assert o.rest == "\n" + data;
    var n := |Encode(stream)|;
    assert Get(o.value, "Length") == Some(Int(n));
    SkipOne(data);
    assert data[..n] == Encode(stream) && data[n..] == mark + after;
    EndStream(after);
  }

  lemma EndStream(after: string)
    ensures Lex("\nendstream\nendobj\n" + after) == Some((TWord("endstream"), "\nendobj\n" + after))
  {
    hide Lex, Value;
    var rest := "\nendobj\n" + after;
    assert "\nendstream\nendobj\n" + after == ['\n'] + ("endstream" + rest) by {
      assert "\nendstream\nendobj\n" == "\n" + "endstream" + "\nendobj\n";
    }
    LexSpace('\n', "endstream" + rest);
    LexWord("endstream", rest);
    assert !IsDigit("endstream"[0]);
    assert WordToken("endstream") == TWord("endstream");
  }

  /** Each leaf of the tree is a page with its own content stream. */
  lemma SheetReads(lines: seq<string>, k: nat)
    requires k < PageCount(lines)
    ensures ReadSheet(FileOf(lines), Reference(PageId(k), 0), Reference(2, 0))
            == Some(Sheet(BOX, Encode(Stream(Chunk(lines, k)))))
  {
    hide AllObjects, Fetch, FileOf, ShowIndirect, Encode, Plain, Stream, StreamObject, PageObject, StreamData, Get, FontsResolve,
      PageEntries, StreamEntries, StreamTail;
    ObjectsAt(lines);
    var page := Dict(PageEntries(3, ContentId(k)));
    PageText(PageId(k), 3, ContentId(k));
    FetchesValue(lines, PageId(k), page, PageObject(PageId(k), 3, ContentId(k)));
    PageEntriesLookUp(3, ContentId(k));
    FontResolves(lines, page);
    var stream := Stream(Chunk(lines, k));
    StreamText(ContentId(k), stream);
    TailStarts(stream);
    var after := Fetches(lines, ContentId(k), Dict(StreamEntries(stream)), "stream", StreamTail(stream));
    StreamReads(stream, Fetch(FileOf(lines), ContentId(k)).value, after);
  }

  lemma TailStarts(stream: string)
    ensures StreamTail(stream) != "" && StreamTail(stream)[0] == '\n'
  {
  }

  function SheetsOf(lines: seq<string>, from: nat): (r: seq<Sheet>)
    requires from <= PageCount(lines)
    ensures |r| == PageCount(lines) - from
  {
    seq(PageCount(lines) - from, i requires 0 <= i < PageCount(lines) - from => Sheet(BOX, Encode(Stream(Chunk(lines, from + i)))))
  }

  lemma {:induction false} SheetsRead(lines: seq<string>, from: nat)
    requires from <= PageCount(lines)
    ensures Sheets(FileOf(lines), Kids(PageIds(PageCount(lines)))[from..], Reference(2, 0)) == Some(SheetsOf(lines, from))
    decreases PageCount(lines) - from
  {
    hide FileOf, Encode, Stream, ReadSheet, Chunk;
    var kids := Kids(PageIds(PageCount(lines)));
    if from < PageCount(lines) {
      SheetReads(lines, from);
      assert kids[from..][0] == Reference(PageId(from), 0);
      assert kids[from..][1..] == kids[from + 1..];
      SheetsRead(lines, from + 1);
      SheetsCons(lines, from);
    }
  }

  lemma SheetsCons(lines: seq<string>, from: nat)
    requires from < PageCount(lines)
    ensures SheetsOf(lines, from) == [Sheet(BOX, Encode(Stream(Chunk(lines, from))))] + SheetsOf(lines, from + 1)
  {
    hide Encode, Stream, Chunk, PageCount;
  }

  // ----- The whole file ----------------------------------------------------------------

  lemma RootLookUps(lines: seq<string>, size: nat)
    ensures Get(Dict(TrailerEntries(size)), "Size") == Some(Int(size))
    ensures Get(Dict(TrailerEntries(size)), "Root") == Some(Reference(1, 0))
    ensures Get(Dict(CATALOG_ENTRIES), "Type") == Some(Name("Catalog"))
    ensures Get(Dict(CATALOG_ENTRIES), "Pages") == Some(Reference(2, 0))
  {
    TwoLookUps(Pair("Size", Int(size)), Pair("Root", Reference(1, 0)));
    TwoLookUps(Pair("Type", Name("Catalog")), Pair("Pages", Reference(2, 0)));
  }

  lemma TwoLookUps(a: Pair, b: Pair)
    requires a.key != b.key
    ensures Get(Dict([a, b]), a.key) == Some(a.value) && Get(Dict([a, b]), b.key) == Some(b.value)
  {
    assert [a, b] == [a] + [b] && [b] == [b] + [];
    LookUpCons(a, [b], a.key);
    LookUpCons(a, [b], b.key);
    LookUpCons(b, [], b.key);
  }

  lemma PagesLookUps(pages: seq<nat>)
    ensures Get(Dict(PagesEntries(pages)), "Type") == Some(Name("Pages"))
    ensures Get(Dict(PagesEntries(pages)), "Kids") == Some(Arr(Kids(pages)))
    ensures Get(Dict(PagesEntries(pages)), "Count") == Some(Int(|pages|))
  {
    hide Kids;
    var a, b, c := Pair("Type", Name("Pages")), Pair("Kids", Arr(Kids(pages))), Pair("Count", Int(|pages|));
    assert PagesEntries(pages) == [a] + [b, c] && [b, c] == [b] + [c] && [c] == [c] + [];
    LookUpCons(a, [b, c], "Type");
    LookUpCons(a, [b, c], "Kids");
    LookUpCons(b, [c], "Kids");
    LookUpCons(a, [b, c], "Count");
    LookUpCons(b, [c], "Count");
    LookUpCons(c, [], "Count");
  }

  /** From the root of the trailer the reader walks to every page, in order. */
  lemma WalksAllPages(lines: seq<string>, size: nat)
    ensures WalkPages(FileOf(lines), Dict(TrailerEntries(size))) == Some(SheetsOf(lines, 0))
  {
    hide AllObjects, Fetch, FileOf, ShowIndirect, Plain, Get, Kids, PageIds, SheetsOf, Sheets, CATALOG, CATALOG_ENTRIES, PagesEntries,
      PagesObject, TrailerEntries;
    ObjectsAt(lines);
    RootLookUps(lines, size);
    CatalogText();
    FetchesValue(lines, 1, Dict(CATALOG_ENTRIES), CATALOG);
    var ids := PageIds(PageCount(lines));
    PagesText(ids);
    FetchesValue(lines, 2, Dict(PagesEntries(ids)), PagesObject(ids));
    PagesLookUps(ids);
    SheetsRead(lines, 0);
    assert Kids(ids)[0..] == Kids(ids);
  }

  /** The reader finds the table and the trailer exactly when every offset fits ten digits. */
  lemma TableReadsBack(lines: seq<string>)
    ensures var at := StartXref(Document(lines));
            at.Some? && at.value <= |Document(lines)|
            && ReadXref(Document(lines)[at.value..])
               == var offsets := Offsets(AllObjects(lines));
                  if Fits(lines) then Some((Table(lines), Trailer(|offsets|, at.value))) else None
  {
    hide AllObjects, Document, StartXref, ReadXref, Body, XrefHead, Trailer, Concat, Entries, AllFit, Plain, Show, TrailerEntries;
    var objects := AllObjects(lines);
    var offsets, body := Offsets(objects), Body(objects);
    var n, at := |objects|, |body|;
    DocumentParts(lines);
    var file, trailer := Document(lines), Trailer(n, at);
    assert file[at..] == XrefHead(n) + Concat(Entries(offsets)) + trailer;
    TrailerSpelled(n, at);
    var front := body + (XrefHead(n) + Concat(Entries(offsets)) + ("trailer" + "\n" + Show(Dict(TrailerEntries(n + 1))) + "\n"));
    assert file == front + Ending(at);
    StartXrefReads(front, at);
    XrefReads(offsets, trailer);
  }

  /** The structure of the file reads back exactly when every offset fits ten digits. */
  lemma PagesReadBack(lines: seq<string>)
    ensures ReadPages(Document(lines)) == if Fits(lines) then Some(SheetsOf(lines, 0)) else None
  {
    hide AllObjects, Document, WalkPages, StartXref, ReadXref, ReadTrailer, TrailerEntries, Get, SheetsOf, Trailer, Fits;
    TableReadsBack(lines);
    var n := |AllObjects(lines)|;
    TrailerReads(n, StartXref(Document(lines)).value);
    RootLookUps(lines, n + 1);
    WalksAllPages(lines, n + 1);
  }

  // ----- Text --------------------------------------------------------------------------

  /** What page `k` is to show. */
  function PageOf(lines: seq<string>, k: nat): Page
    requires k < PageCount(lines)
  {
    Page(BOX, PdfContent.PageText(Chunk(lines, k), 50, 790))
  }

  function PagesFrom(lines: seq<string>, from: nat): (r: seq<Page>)
    requires from <= PageCount(lines)
    ensures |r| == PageCount(lines) - from
    ensures forall i :: 0 <= i < |r| ==> r[i] == PageOf(lines, from + i)
  {
    seq(PageCount(lines) - from, i requires 0 <= i < PageCount(lines) - from => PageOf(lines, from + i))
  }

  lemma {:induction false} InterpretsAll(lines: seq<string>, from: nat)
    requires from <= PageCount(lines)
    ensures InterpretAll(SheetsOf(lines, from)) == Some(PagesFrom(lines, from))
    decreases PageCount(lines) - from
  {
    hide Encode, Stream, Interpret, Chunk, SheetsOf, PageCount;
    if from < PageCount(lines) {
      SheetsCons(lines, from);
      PdfContent.StreamShowsLines(Chunk(lines, from));
      InterpretsAll(lines, from + 1);
      assert SheetsOf(lines, from)[1..] == SheetsOf(lines, from + 1);
      assert PagesFrom(lines, from) == [PageOf(lines, from)] + PagesFrom(lines, from + 1);
    }
  }

  /**
   Reading the written file gives one page for every 28 lines, each showing exactly its own
   lines, from (50, 790) down; and it fails exactly when an offset does not fit.
   */
  lemma FileReadsBack(lines: seq<string>)
    ensures ReadText(Document(lines)) == if Fits(lines) then Some(PagesFrom(lines, 0)) else None
  {
    hide ReadPages, Document, InterpretAll, Fits, SheetsOf, PagesFrom;
    PagesReadBack(lines);
    InterpretsAll(lines, 0);
  }

  /** The texts of all pages in reading order, decoded. */
  function Texts(pages: seq<Page>): seq<Option<string>> {
    if pages == [] then [] else PageTexts(pages[0].shown) + Texts(pages[1..])
  }

  function PageTexts(shown: seq<Shown>): (r: seq<Option<string>>)
    ensures |r| == |shown|
  {
    seq(|shown|, i requires 0 <= i < |shown| => Decode(shown[i].text))
  }

  function NormalizedFrom(lines: seq<string>, from: nat): (r: seq<Option<string>>)
    requires from <= |lines|
    ensures |r| == |lines| - from
  {
    seq(|lines| - from, i requires 0 <= i < |lines| - from => Some(Normalized(lines[from + i])))
  }

  lemma ChunkTexts(lines: seq<string>, k: nat)
    requires k < PageCount(lines)
    ensures PageTexts(PageOf(lines, k).shown)
            == NormalizedFrom(lines, k * LINES_PER_PAGE)[..|Chunk(lines, k)|]
  {
    hide Decode, Normalized, Encode;
    var page := PageOf(lines, k).shown;
    forall i | 0 <= i < |page|
      ensures Decode(page[i].text) == Some(Normalized(lines[k * LINES_PER_PAGE + i]))
    {
      ReadsBackExactly(Chunk(lines, k)[i]);
    }
  }

  lemma {:induction false} TextsFrom(lines: seq<string>, from: nat)
    requires from <= PageCount(lines) && from * LINES_PER_PAGE <= |lines| + LINES_PER_PAGE
    ensures Texts(PagesFrom(lines, from)) == NormalizedFrom(lines, Min(from * LINES_PER_PAGE, |lines|))
    decreases PageCount(lines) - from
  {
    hide PageTexts, Normalized, PageOf, Decode;
    var pages := PagesFrom(lines, from);
    if from < PageCount(lines) {
      ChunkTexts(lines, from);
      assert pages[1..] == PagesFrom(lines, from + 1);
      TextsFrom(lines, from + 1);
      var all, n := NormalizedFrom(lines, from * LINES_PER_PAGE), |Chunk(lines, from)|;
      assert all == all[..n] + all[n..];
      assert all[n..] == NormalizedFrom(lines, from * LINES_PER_PAGE + n);
    }
  }

  /** All the lines come back, in order, with end-of-line markers normalised. */
  lemma LinesReadBack(lines: seq<string>)
    requires Fits(lines)
    ensures ReadText(Document(lines)).Some?
    ensures Texts(ReadText(Document(lines)).value) == NormalizedFrom(lines, 0)
  {
    hide ReadText, Document, Fits, Texts, PagesFrom;
    FileReadsBack(lines);
    TextsFrom(lines, 0);
  }

  /** Nothing at all is lost exactly when no line has a carriage return. */
  lemma LinesAreKept(lines: seq<string>)
    requires Fits(lines)
    ensures ReadText(Document(lines)).Some?
    ensures Texts(ReadText(Document(lines)).value) == seq(|lines|, i requires 0 <= i < |lines| => Some(lines[i]))
            <==> forall i :: 0 <= i < |lines| ==> '\r' !in lines[i]
  {
    hide ReadText, Document, Fits, Texts, Normalized;
    LinesReadBack(lines);
    var kept := seq(|lines|, i requires 0 <= i < |lines| => Some(lines[i]));
    forall i | 0 <= i < |lines|
      ensures NormalizedFrom(lines, 0)[i] == kept[i] <==> '\r' !in lines[i]
    {
      ReadsBackExactly(lines[i]);
    }
    if Texts(ReadText(Document(lines)).value) == kept {
      forall i | 0 <= i < |lines|
        ensures '\r' !in lines[i]
      {
        assert NormalizedFrom(lines, 0)[i] == kept[i];
      }
    }
  }

  /**
   The bytes of every string: those of its line, end-of-line markers normalised. For a line
   of ASCII characters without carriage returns they are its characters; what glyphs other
   bytes stand for is up to the font's encoding.
   */
  lemma LineBytesReadBack(lines: seq<string>, k: nat, i: nat)
    requires Fits(lines) && k < PageCount(lines) && i < |Chunk(lines, k)|
    ensures var r := ReadText(Document(lines));
            var line := Chunk(lines, k)[i];
            r.Some? && |r.value| == PageCount(lines) && |r.value[k].shown| == |Chunk(lines, k)|
            && r.value[k].shown[i].text == Normalized(Encode(line))
            && (IsAscii(line) && '\r' !in line ==> r.value[k].shown[i].text == line)
  {
    hide ReadText, Document, Fits, Normalized, Encode;
    FileReadsBack(lines);
    var line := Chunk(lines, k)[i];
    if IsAscii(line) && '\r' !in line {
      EncodeAscii(line);
      ReadsBackExactly(line);
    }
  }

  /** Every string is shown on the page: its baseline lies between 88 and 790 in a box 792 units high. */
  lemma BaselinesOnThePage(lines: seq<string>, k: nat, i: nat)
    requires Fits(lines) && k < PageCount(lines) && i < |Chunk(lines, k)|
    ensures var r := ReadText(Document(lines));
            r.Some? && |r.value| == PageCount(lines) && |r.value[k].shown| == |Chunk(lines, k)|
            && r.value[k].shown[i].x == 50 && r.value[k].shown[i].y == 790 - 26 * i
            && 88 <= r.value[k].shown[i].y <= 790
  {
    hide ReadText, Document, Fits;
    FileReadsBack(lines);
  }

  /**
   Where line `j` of the catalogue is found in the written file: on page `j / 28`, as string
   `j % 28`, 50 units from the left and 26 lower than the one before it, on a page of 612 by 792.
   */
  lemma LineIsAt(lines: seq<string>, j: nat)
    requires Fits(lines) && j < |lines|
    ensures var r := ReadText(Document(lines));
            r.Some? && |r.value| == (|lines| + 27) / 28 && j / 28 < |r.value|
            && var page := r.value[j / 28];
               && page.box == Arr([Int(0), Int(0), Int(612), Int(792)])
               && |page.shown| == (if j / 28 == |lines| / 28 then |lines| % 28 else 28) && j % 28 < |page.shown|
               && page.shown[j % 28] == Shown(50, 790 - 26 * (j % 28), Normalized(Encode(lines[j])))
  {
    hide ReadText, Document, Fits, Normalized, Encode;
    FileReadsBack(lines);
    var k := j / 28;
    assert k < PageCount(lines) && Chunk(lines, k)[j % 28] == lines[j];
    var page := PageOf(lines, k);
    assert ReadText(Document(lines)).value[k] == page;
  }

  /** The file begins with the version of the format and ends with the end-of-file mark. */
  lemma FileIsFramed(lines: seq<string>)
    ensures "%PDF-1.4\n" <= Document(lines)
    ensures |Document(lines)| >= 6 && Document(lines)[|Document(lines)| - 6..] == "%%EOF\n"
  {
    hide Encode, Concat, AllObjects, Dec, Offsets, Entries, XrefHead, Document;
    var objects := AllObjects(lines);
    DocumentParts(lines);
    EncodeAppend(HEADER, Concat(objects));
    EncodeAscii(HEADER);
    var at := |Body(objects)|;
    var file := Document(lines);
    var n := |Offsets(objects)|;
    var front := Body(objects) + (XrefHead(n) + Concat(Entries(Offsets(objects)))
                 + ("trailer\n<< /Size " + Dec(n + 1) + " /Root 1 0 R >>\nstartxref\n" + Dec(at) + "\n"));
    assert "\n%%EOF\n" == "\n" + "%%EOF\n";
    assert file == front + "%%EOF\n";
  }
}
