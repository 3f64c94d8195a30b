/** The hand-written PDF writer of scripts/run_phase11_simulation.py. */
module PdfWriter {
  import opened Common
  import opened Utf8
  import opened Decimal

  const LINES_PER_PAGE := 28

  // ----- Strings -----------------------------------------------------------------------

  /** `s.replace(c, with)` for a one-character pattern. */
  function Replace(s: string, c: char, with: string): string {
    if s == "" then "" else (if s[0] == c then with else [s[0]]) + Replace(s[1..], c, with)
  }

  /** `escape`: three replacements, one after the other. */
  function Escape(text: string): string {
    Replace(Replace(Replace(text, '\\', "\\\\"), '(', "\\("), ')', "\\)")
  }

  /** `sep.join(parts)` */
  function Join(sep: string, parts: seq<string>): string {
    if parts == [] then ""
    else if |parts| == 1 then parts[0]
    else Join(sep, parts[..|parts| - 1]) + sep + parts[|parts| - 1]
  }

  /** `"".join(parts)` */
  function Concat(parts: seq<string>): string {
    if parts == [] then "" else Concat(parts[..|parts| - 1]) + parts[|parts| - 1]
  }

  // ----- Content of a page -------------------------------------------------------------

  function ShowLine(line: string): string {
    "(" + Escape(line) + ") Tj"
  }

  /** The text operators of the lines of a page: all but the first line are preceded by a move. */
  function Shows(pageLines: seq<string>): seq<string> {
    if pageLines == [] then []
    else
      Shows(pageLines[..|pageLines| - 1])
      + (if |pageLines| > 1 then ["0 -26 Td"] else [])
      + [ShowLine(pageLines[|pageLines| - 1])]
  }

  function Content(pageLines: seq<string>): seq<string> {
    ["BT", "/F1 10 Tf", "50 790 Td"] + Shows(pageLines) + ["ET"]
  }

  function Stream(pageLines: seq<string>): string {
    Join("\n", Content(pageLines))
  }

  // ----- Objects -----------------------------------------------------------------------

  function StreamObject(id: nat, stream: string): string {
    Dec(id) + " 0 obj\n" + ("<< /Length " + Dec(|Encode(stream)|) + " >>") + "\nstream\n" + stream + "\nendstream\nendobj\n"
  }

  function PageObject(id: nat, font: nat, content: nat): string {
    Dec(id) + " 0 obj\n"
    + ("<<" + (" /Type /Page" + " /Parent 2 0 R"
               + (" /Resources << /Font << /F1 " + Dec(font) + " 0 R >> >>")
               + " /MediaBox [0 0 612 792]"
               + (" /Contents " + Dec(content) + " 0 R")) + " >>")
    + "\nendobj\n"
  }

  function PageRef(page: nat): string {
    Dec(page) + " 0 R"
  }

  function Refs(pages: seq<nat>): (r: seq<string>)
    ensures |r| == |pages|
  {
    seq(|pages|, i requires 0 <= i < |pages| => PageRef(pages[i]))
  }

  const CATALOG := "1 0 obj\n" + ("<<" + (" /Type /Catalog" + " /Pages 2 0 R") + " >>") + "\nendobj\n"

  function PagesObject(pages: seq<nat>): string {
    "2 0 obj\n"
    + ("<<" + (" /Type /Pages" + (" /Kids [" + Join(" ", Refs(pages)) + "]") + (" /Count " + Dec(|pages|))) + " >>")
    + "\nendobj\n"
  }

  const FONT := "3 0 obj\n" + ("<<" + (" /Type /Font" + " /Subtype /Type1" + " /BaseFont /Helvetica") + " >>") + "\nendobj\n"

  // ----- Pages -------------------------------------------------------------------------

  /** How many pages `range(0, len(lines), 28)` makes. */
  function PageCount(lines: seq<string>): (n: nat)
    ensures n > 0 ==> (n - 1) * LINES_PER_PAGE < |lines|
    ensures |lines| <= n * LINES_PER_PAGE
  {
    (|lines| + LINES_PER_PAGE - 1) / LINES_PER_PAGE
  }

  function Min(a: int, b: int): int {
    if a <= b then a else b
  }

  /** The slice `lines[start : start + 28]` of page `k`. */
  function Chunk(lines: seq<string>, k: nat): seq<string>
    requires k * LINES_PER_PAGE <= |lines|
  {
    lines[k * LINES_PER_PAGE .. Min((k + 1) * LINES_PER_PAGE, |lines|)]
  }

  function ContentId(k: nat): nat {
    2 * k + 4
  }

  function PageId(k: nat): nat {
    2 * k + 5
  }

  /** The content and page objects of the first `n` pages. */
  function PageObjects(lines: seq<string>, n: nat): (r: seq<string>)
    requires n <= PageCount(lines)
    ensures |r| == 2 * n
  {
    if n == 0 then []
    else
      PageObjects(lines, n - 1)
      + [StreamObject(ContentId(n - 1), Stream(Chunk(lines, n - 1))), PageObject(PageId(n - 1), 3, ContentId(n - 1))]
  }

  function PageIds(n: nat): (r: seq<nat>)
    ensures |r| == n
  {
    seq(n, k requires 0 <= k < n => PageId(k))
  }

  function AllObjects(lines: seq<string>): seq<string> {
    [CATALOG, PagesObject(PageIds(PageCount(lines))), FONT] + PageObjects(lines, PageCount(lines))
  }

  // ----- The file ----------------------------------------------------------------------

  const HEADER := "%PDF-1.4\n"

  /** The byte offset behind the header and `objects`. */
  function EndOf(objects: seq<string>): nat {
    if objects == [] then |Encode(HEADER)| else EndOf(objects[..|objects| - 1]) + |Encode(objects[|objects| - 1])|
  }

  function Entry(offset: nat): string {
    Padded(offset) + " 00000 n \n"
  }

  /** The offsets of `objects`, in order. */
  function Offsets(objects: seq<string>): (r: seq<nat>)
    ensures |r| == |objects|
  {
    seq(|objects|, i requires 0 <= i < |objects| => EndOf(objects[..i]))
  }

  function Entries(offsets: seq<nat>): (r: seq<string>)
    ensures |r| == |offsets|
  {
    seq(|offsets|, i requires 0 <= i < |offsets| => Entry(offsets[i]))
  }

  function XrefHead(n: nat): string {
    "xref\n0 " + Dec(n + 1) + "\n0000000000 65535 f \n"
  }

  function Trailer(n: nat, xrefAt: nat): string {
    "trailer\n<< /Size " + Dec(n + 1) + " /Root 1 0 R >>\nstartxref\n" + Dec(xrefAt) + "\n%%EOF\n"
  }

  function Output(lines: seq<string>): seq<string> {
    var objects := AllObjects(lines);
    [HEADER] + objects + [XrefHead(|objects|)] + Entries(Offsets(objects)) + [Trailer(|objects|, EndOf(objects))]
  }

  /** The bytes of the file. */
  function Document(lines: seq<string>): string {
    Encode(Concat(Output(lines)))
  }

  // ----- The writer --------------------------------------------------------------------

  method PageStream(pageLines: seq<string>) returns (stream: string)
    ensures stream == Stream(pageLines)
  {
    var content := ["BT", "/F1 10 Tf", "50 790 Td"];
    for idx := 0 to |pageLines|
      invariant content == ["BT", "/F1 10 Tf", "50 790 Td"] + Shows(pageLines[..idx])
    {
      assert pageLines[..idx + 1][..idx] == pageLines[..idx];
      if idx != 0 {
        content := content + ["0 -26 Td"];
      }
      content := content + ["(" + Escape(pageLines[idx]) + ") Tj"];
    }
    assert pageLines[..|pageLines|] == pageLines;
    content := content + ["ET"];
    stream := Join("\n", content);
  }

  method MakePages(lines: seq<string>) returns (objects: seq<string>, pages: seq<nat>)
    ensures objects == PageObjects(lines, PageCount(lines))
    ensures pages == PageIds(PageCount(lines))
  {
    hide StreamObject, PageObject, Stream, Shows, Join, Dec;
    objects, pages := [], [];
    ghost var k := 0;
    var start := 0;
    while start < |lines|
      invariant k <= PageCount(lines) && start == k * LINES_PER_PAGE
      invariant objects == PageObjects(lines, k) && pages == PageIds(k)
      decreases |lines| - start
    {
      var end := if start + LINES_PER_PAGE < |lines| then start + LINES_PER_PAGE else |lines|;
      assert lines[start..end] == Chunk(lines, k);
      var stream := PageStream(lines[start..end]);
      var contentId, pageId := |objects| + 4, |objects| + 5;
      objects := objects + [StreamObject(contentId, stream)];
      objects := objects + [PageObject(pageId, 3, contentId)];
      pages := pages + [pageId];
      start := start + LINES_PER_PAGE;
      k := k + 1;
    }
  }

  /** The running byte count: each object's offset is noted before the object is counted. */
  method NoteOffsets(allObjects: seq<string>) returns (output: seq<string>, offsets: seq<nat>, byteCount: nat)
    ensures output == [HEADER] + allObjects
    ensures offsets == [0] + Offsets(allObjects)
    ensures byteCount == EndOf(allObjects)
  {
    hide Encode;
    output, offsets := [HEADER], [0];
    byteCount := |Encode(output[0])|;
    for i := 0 to |allObjects|
      invariant output == [HEADER] + allObjects[..i]
      invariant offsets == [0] + Offsets(allObjects[..i])
      invariant byteCount == EndOf(allObjects[..i])
    {
      assert allObjects[..i + 1][..i] == allObjects[..i];
      assert forall j :: 0 <= j <= i ==> allObjects[..i + 1][..j] == allObjects[..i][..j];
      assert Offsets(allObjects[..i + 1]) == Offsets(allObjects[..i]) + [EndOf(allObjects[..i])];
      offsets := offsets + [byteCount];
      output := output + [allObjects[i]];
      byteCount := byteCount + |Encode(allObjects[i])|;
    }
    assert allObjects[..|allObjects|] == allObjects;
  }

  /** `write_simple_pdf`: what is written to the path. */
  method WriteSimplePdf(lines: seq<string>) returns (bytes: string)
    ensures bytes == Document(lines)
  {
    hide Encode, EndOf, Entry, XrefHead, Trailer, PagesObject, Concat;
    var objects, pages := MakePages(lines);
    var allObjects := [CATALOG, PagesObject(pages), FONT] + objects;
    var output, offsets, byteCount := NoteOffsets(allObjects);
    var xrefAt := byteCount;
    output := output + [XrefHead(|allObjects|)];
    ghost var before := output;
    for i := 1 to |offsets|
      invariant output == before + Entries(offsets[1..i])
    {
      assert offsets[1..i + 1] == offsets[1..i] + [offsets[i]];
      output := output + [Entry(offsets[i])];
    }
    assert offsets[1..|offsets|] == Offsets(allObjects);
    output := output + [Trailer(|allObjects|, xrefAt)];
    bytes := Encode(Concat(output));
  }
}
