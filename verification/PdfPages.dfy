/** The objects the writer makes, as values, and their texts. */
module PdfPages {
  import opened Common
  import opened Utf8
  import opened Decimal
  import opened PdfWriter
  import opened PdfSyntax
  import opened PdfReader
  import opened PdfLexing
  import opened PdfObjects

  // ----- Texts of dictionaries ---------------------------------------------------------

  predicate PlainEntry(p: Pair) {
    RegularText(p.key) && Plain(p.value)
  }

  predicate PlainEntries(entries: seq<Pair>) {
    forall i :: 0 <= i < |entries| ==> PlainEntry(entries[i])
  }

  lemma {:induction false} ShowEntriesAppend(a: seq<Pair>, p: Pair)
    requires PlainEntries(a) && PlainEntry(p)
    ensures PlainEntries(a + [p]) && ShowEntries(a + [p]) == ShowEntries(a) + ShowEntry(p)
  {
    hide ShowEntry, Plain;
    assert forall i :: 0 <= i < |a + [p]| ==> (a + [p])[i] == if i < |a| then a[i] else [p][i - |a|];
    if a == [] {
      assert a + [p] == [p] && [p][1..] == [];
      assert ShowEntry(p) + "" == "" + ShowEntry(p);
    } else {
      assert (a + [p])[1..] == a[1..] + [p];
      ShowEntriesAppend(a[1..], p);
    }
  }

  lemma ShowOne(p: Pair)
    requires PlainEntry(p)
    ensures ShowEntries([p]) == ShowEntry(p)
  {
    hide ShowEntry;
    ShowEntriesAppend([], p);
    assert [] + [p] == [p];
  }

  lemma NameEntry(key: string, name: string)
    requires RegularText(key) && RegularText(name)
    ensures PlainEntry(Pair(key, Name(name)))
    ensures ShowEntry(Pair(key, Name(name))) == " /" + key + " /" + name
  {
  }

  lemma NumberEntry(key: string, n: nat)
    requires RegularText(key)
    ensures PlainEntry(Pair(key, Int(n)))
    ensures ShowEntry(Pair(key, Int(n))) == " /" + key + " " + Dec(n)
  {
  }

  lemma ReferenceEntry(key: string, num: nat)
    requires RegularText(key)
    ensures PlainEntry(Pair(key, Reference(num, 0)))
    ensures ShowEntry(Pair(key, Reference(num, 0))) == " /" + key + " " + Dec(num) + " 0 R"
  {
    assert Dec(0) == "0";
  }

  // ----- The objects -------------------------------------------------------------------

  const CATALOG_ENTRIES := [Pair("Type", Name("Catalog")), Pair("Pages", Reference(2, 0))]

  const FONT_ENTRIES := [Pair("Type", Name("Font")), Pair("Subtype", Name("Type1")), Pair("BaseFont", Name("Helvetica"))]

  function Kids(pages: seq<nat>): (r: seq<Obj>)
    ensures |r| == |pages|
  {
    seq(|pages|, i requires 0 <= i < |pages| => Reference(pages[i], 0))
  }

  function PagesEntries(pages: seq<nat>): seq<Pair> {
    [Pair("Type", Name("Pages")), Pair("Kids", Arr(Kids(pages))), Pair("Count", Int(|pages|))]
  }

  function StreamEntries(stream: string): seq<Pair> {
    [Pair("Length", Int(|Encode(stream)|))]
  }

  function Resources(font: nat): Obj {
    Dict([Pair("Font", Dict([Pair("F1", Reference(font, 0))]))])
  }

  const BOX := Arr([Int(0), Int(0), Int(612), Int(792)])

  function PageEntries(font: nat, content: nat): seq<Pair> {
    [Pair("Type", Name("Page")), Pair("Parent", Reference(2, 0)), Pair("Resources", Resources(font)),
     Pair("MediaBox", BOX), Pair("Contents", Reference(content, 0))]
  }

  // ----- Their texts -------------------------------------------------------------------

  lemma CatalogText()
    ensures Plain(Dict(CATALOG_ENTRIES))
    ensures CATALOG == ShowIndirect(1, Dict(CATALOG_ENTRIES), "endobj") + "\n"
  {
    hide ShowEntry, ShowEntries, RegularText, Dec;
    var a, b := Pair("Type", Name("Catalog")), Pair("Pages", Reference(2, 0));
    Words();
    NameEntry("Type", "Catalog");
    ReferenceEntry("Pages", 2);
    Digits();
    ShowOne(a);
    ShowEntriesAppend([a], b);
    assert [a] + [b] == CATALOG_ENTRIES;
    assert ShowEntry(a) == " /Type /Catalog" && ShowEntry(b) == " /Pages 2 0 R";
    Terminates(1, CATALOG_ENTRIES, "1 0 obj\n");
  }

  lemma Words()
    ensures RegularText("Type") && RegularText("Catalog") && RegularText("Pages") && RegularText("Font")
    ensures RegularText("Subtype") && RegularText("Type1") && RegularText("BaseFont") && RegularText("Helvetica")
    ensures RegularText("Kids") && RegularText("Count") && RegularText("Length") && RegularText("F1")
    ensures RegularText("Page") && RegularText("Parent") && RegularText("Resources")
    ensures RegularText("MediaBox") && RegularText("Contents") && RegularText("Size") && RegularText("Root")
  {
    hide RegularText;
    Letters("Type");
    Letters("Catalog");
    Letters("Pages");
    Letters("Font");
    Letters("Subtype");
    Letters("Type1");
    Letters("BaseFont");
    Letters("Helvetica");
    Letters("Kids");
    Letters("Count");
    Letters("Length");
    Letters("F1");
    Letters("Page");
    Letters("Parent");
    Letters("Resources");
    Letters("MediaBox");
    Letters("Contents");
    Letters("Size");
    Letters("Root");
  }

  lemma Letters(s: string)
    requires forall i :: 0 <= i < |s| ==> '0' <= s[i] <= '9' || 'A' <= s[i] <= 'Z' || 'a' <= s[i] <= 'z'
    ensures RegularText(s)
  {
  }

  lemma Digits()
    ensures Dec(0) == "0" && Dec(1) == "1" && Dec(2) == "2" && Dec(3) == "3" && Dec(612) == "612" && Dec(792) == "792"
  {
    assert Dec(61) == "61" && Dec(79) == "79";
  }

  lemma Terminates(id: nat, entries: seq<Pair>, head: string)
    requires PlainEntries(entries) && head == Dec(id) + " 0 obj\n"
    ensures Plain(Dict(entries))
    ensures head + ("<<" + ShowEntries(entries) + " >>") + "\nendobj\n" == ShowIndirect(id, Dict(entries), "endobj") + "\n"
  {
    hide ShowEntries;
    assert "\nendobj\n" == "\n" + "endobj" + "\n";
    assert Show(Dict(entries)) == "<<" + ShowEntries(entries) + " >>";
  }

  lemma FontText()
    ensures Plain(Dict(FONT_ENTRIES))
    ensures FONT == ShowIndirect(3, Dict(FONT_ENTRIES), "endobj") + "\n"
  {
    hide ShowEntry, ShowEntries, RegularText, Dec;
    var a, b, c := Pair("Type", Name("Font")), Pair("Subtype", Name("Type1")), Pair("BaseFont", Name("Helvetica"));
    Words();
    NameEntry("Type", "Font");
    NameEntry("Subtype", "Type1");
    NameEntry("BaseFont", "Helvetica");
    Digits();
    ShowOne(a);
    ShowEntriesAppend([a], b);
    assert [a] + [b] == [a, b];
    ShowEntriesAppend([a, b], c);
    assert [a, b] + [c] == FONT_ENTRIES;
    assert ShowEntry(a) == " /Type /Font" && ShowEntry(b) == " /Subtype /Type1" && ShowEntry(c) == " /BaseFont /Helvetica";
    Terminates(3, FONT_ENTRIES, "3 0 obj\n");
  }

  // ----- The page tree node ------------------------------------------------------------

  lemma {:induction false} ShowTailAppend(items: seq<Obj>, o: Obj)
    requires forall i :: 0 <= i < |items| ==> Plain(items[i])
    requires Plain(o)
    ensures forall i :: 0 <= i < |items + [o]| ==> Plain((items + [o])[i])
    ensures ShowTail(items + [o]) == ShowTail(items) + " " + Show(o)
  {
    hide Show, Plain;
    if items == [] {
      assert items + [o] == [o] && [o][1..] == [];
      assert " " + Show(o) + "" == "" + " " + Show(o);
    } else {
      assert (items + [o])[1..] == items[1..] + [o];
      ShowTailAppend(items[1..], o);
    }
  }

  lemma ShowItemsAppend(items: seq<Obj>, o: Obj)
    requires forall i :: 0 <= i < |items| ==> Plain(items[i])
    requires Plain(o)
    ensures forall i :: 0 <= i < |items + [o]| ==> Plain((items + [o])[i])
    ensures ShowItems(items + [o]) == ShowItems(items) + (if items == [] then "" else " ") + Show(o)
  {
    hide Show, Plain, ShowTail;
    if items == [] {
      assert items + [o] == [o] && [o][1..] == [];
      assert ShowTail([]) == "" by { ShowTailEmpty(); }
      assert Show(o) + "" == "" + "" + Show(o);
    } else {
      assert (items + [o])[1..] == items[1..] + [o];
      ShowTailAppend(items[1..], o);
    }
  }

  lemma ShowTailEmpty()
    ensures ShowTail([]) == ""
  {
  }

  lemma ShowReference(num: nat)
    ensures Show(Reference(num, 0)) == PageRef(num)
  {
    assert Dec(0) == "0";
  }

  lemma {:induction false} KidsText(pages: seq<nat>)
    ensures Plain(Arr(Kids(pages)))
    ensures ShowItems(Kids(pages)) == Join(" ", Refs(pages))
  {
    hide Show, ShowTail;
    if pages != [] {
      var init, last := pages[..|pages| - 1], pages[|pages| - 1];
      KidsText(init);
      ShowReference(last);
      assert Kids(pages) == Kids(init) + [Reference(last, 0)];
      assert Refs(pages) == Refs(init) + [PageRef(last)];
      assert Refs(pages)[..|pages| - 1] == Refs(init);
      ShowItemsAppend(Kids(init), Reference(last, 0));
      assert "" + "" + PageRef(last) == PageRef(last);
    }
  }

  lemma KidsEntry(pages: seq<nat>)
    ensures PlainEntry(Pair("Kids", Arr(Kids(pages))))
    ensures ShowEntry(Pair("Kids", Arr(Kids(pages)))) == " /Kids [" + Join(" ", Refs(pages)) + "]"
  {
    hide ShowItems, Kids, Refs, Join, RegularText;
    Words();
    KidsText(pages);
    assert Show(Arr(Kids(pages))) == "[" + Join(" ", Refs(pages)) + "]";
    assert " /" + "Kids" + " " + "[" == " /Kids [";
  }

  lemma PagesText(pages: seq<nat>)
    ensures Plain(Dict(PagesEntries(pages)))
    ensures PagesObject(pages) == ShowIndirect(2, Dict(PagesEntries(pages)), "endobj") + "\n"
  {
    hide ShowEntry, ShowEntries, RegularText, Dec, Kids, Refs, Join;
    var a, b, c := Pair("Type", Name("Pages")), Pair("Kids", Arr(Kids(pages))), Pair("Count", Int(|pages|));
    Words();
    NameEntry("Type", "Pages");
    KidsEntry(pages);
    NumberEntry("Count", |pages|);
    Digits();
    ShowOne(a);
    ShowEntriesAppend([a], b);
    assert [a] + [b] == [a, b];
    ShowEntriesAppend([a, b], c);
    assert [a, b] + [c] == PagesEntries(pages);
    assert ShowEntry(a) == " /Type /Pages" && ShowEntry(c) == " /Count " + Dec(|pages|);
    Terminates(2, PagesEntries(pages), "2 0 obj\n");
  }

  // ----- Pages and streams -------------------------------------------------------------

  lemma FontsShown(font: nat)
    ensures Plain(Dict([Pair("F1", Reference(font, 0))]))
    ensures Show(Dict([Pair("F1", Reference(font, 0))])) == "<< /F1 " + Dec(font) + " 0 R >>"
  {
    hide ShowEntries, RegularText, Dec;
    Words();
    ReferenceEntry("F1", font);
    ShowOne(Pair("F1", Reference(font, 0)));
    assert "<<" + (" /" + "F1" + " " + Dec(font) + " 0 R") + " >>" == "<< /F1 " + Dec(font) + " 0 R >>";
  }

  lemma ResourcesEntry(font: nat)
    ensures PlainEntry(Pair("Resources", Resources(font)))
    ensures ShowEntry(Pair("Resources", Resources(font))) == " /Resources << /Font << /F1 " + Dec(font) + " 0 R >> >>"
  {
    hide ShowEntries, RegularText, Dec;
    Words();
    FontsShown(font);
    var inner := Pair("Font", Dict([Pair("F1", Reference(font, 0))]));
    ShowOne(inner);
    assert ShowEntry(inner) == " /" + "Font" + " " + ("<< /F1 " + Dec(font) + " 0 R >>");
    assert Show(Resources(font)) == "<<" + ShowEntry(inner) + " >>";
    ResourcesSpelled(Dec(font));
  }

  lemma ResourcesSpelled(n: string)
    ensures " /" + "Resources" + " " + ("<<" + (" /" + "Font" + " " + ("<< /F1 " + n + " 0 R >>")) + " >>")
            == " /Resources << /Font << /F1 " + n + " 0 R >> >>"
  {
    assert " /" + "Resources" + " " + "<<" + " /" + "Font" + " " + "<< /F1 " == " /Resources << /Font << /F1 ";
    assert " 0 R >>" + " >>" == " 0 R >> >>";
  }

  lemma ShowBox()
    ensures Plain(BOX) && Show(BOX) == "[0 0 612 792]"
  {
    hide Dec, ShowItems;
    Digits();
    var i0, i1, i2 := [Int(0)], [Int(0), Int(0)], [Int(0), Int(0), Int(612)];
    ShowItemsOne(Int(0));
    ShowItemsAppend(i0, Int(0));
    assert i0 + [Int(0)] == i1;
    ShowItemsAppend(i1, Int(612));
    assert i1 + [Int(612)] == i2;
    ShowItemsAppend(i2, Int(792));
    assert i2 + [Int(792)] == [Int(0), Int(0), Int(612), Int(792)];
    assert ShowItems([Int(0), Int(0), Int(612), Int(792)]) == "0 0 612 792";
    assert "[" + "0 0 612 792" + "]" == "[0 0 612 792]";
  }

  lemma ShowItemsOne(o: Obj)
    requires Plain(o)
    ensures ShowItems([o]) == Show(o)
  {
    hide Show;
    assert [o][1..] == [] && ShowTail([]) == "";
    assert Show(o) + "" == Show(o);
  }

  lemma BoxEntry()
    ensures PlainEntry(Pair("MediaBox", BOX))
    ensures ShowEntry(Pair("MediaBox", BOX)) == " /MediaBox [0 0 612 792]"
  {
    hide RegularText, Show, Plain;
    Words();
    ShowBox();
    assert " /" + "MediaBox" + " " == " /MediaBox ";
  }

  lemma PageEntriesText(font: nat, content: nat)
    ensures PlainEntries(PageEntries(font, content))
    ensures ShowEntries(PageEntries(font, content))
            == " /Type /Page" + " /Parent 2 0 R" + (" /Resources << /Font << /F1 " + Dec(font) + " 0 R >> >>")
               + " /MediaBox [0 0 612 792]" + (" /Contents " + Dec(content) + " 0 R")
  {
    hide ShowEntry, ShowEntries, PlainEntry, RegularText, Dec;
    var a, b := Pair("Type", Name("Page")), Pair("Parent", Reference(2, 0));
    var c, d, e := Pair("Resources", Resources(font)), Pair("MediaBox", BOX), Pair("Contents", Reference(content, 0));
    Words();
    Digits();
    NameEntry("Type", "Page");
    ReferenceEntry("Parent", 2);
    ResourcesEntry(font);
    BoxEntry();
    ReferenceEntry("Contents", content);
    assert ShowEntry(a) == " /Type /Page" && ShowEntry(b) == " /Parent 2 0 R";
    assert ShowEntry(e) == " /Contents " + Dec(content) + " 0 R";
    ShowFive(a, b, c, d, e);
  }

  lemma ShowFive(a: Pair, b: Pair, c: Pair, d: Pair, e: Pair)
    requires PlainEntry(a) && PlainEntry(b) && PlainEntry(c) && PlainEntry(d) && PlainEntry(e)
    ensures PlainEntries([a, b, c, d, e])
    ensures ShowEntries([a, b, c, d, e]) == ShowEntry(a) + ShowEntry(b) + ShowEntry(c) + ShowEntry(d) + ShowEntry(e)
  {
    hide ShowEntry, ShowEntries, PlainEntry;
    ShowOne(a);
    ShowEntriesAppend([a], b);
    assert [a] + [b] == [a, b];
    ShowEntriesAppend([a, b], c);
    assert [a, b] + [c] == [a, b, c];
    ShowEntriesAppend([a, b, c], d);
    assert [a, b, c] + [d] == [a, b, c, d];
    ShowEntriesAppend([a, b, c, d], e);
    assert [a, b, c, d] + [e] == [a, b, c, d, e];
  }

  lemma PageText(id: nat, font: nat, content: nat)
    ensures Plain(Dict(PageEntries(font, content)))
    ensures PageObject(id, font, content) == ShowIndirect(id, Dict(PageEntries(font, content)), "endobj") + "\n"
  {
    hide ShowEntries, PlainEntry, Dec, PageEntries;
    PageEntriesText(font, content);
    Terminates(id, PageEntries(font, content), Dec(id) + " 0 obj\n");
  }

  /** What follows the keyword `stream` in a stream object. */
  function StreamTail(stream: string): string {
    "\n" + stream + "\nendstream\nendobj\n"
  }

  lemma StreamText(id: nat, stream: string)
    ensures Plain(Dict(StreamEntries(stream)))
    ensures StreamObject(id, stream) == ShowIndirect(id, Dict(StreamEntries(stream)), "stream") + StreamTail(stream)
  {
    hide ShowEntry, ShowEntries, RegularText, Dec, Encode;
    var n := Dec(|Encode(stream)|);
    Words();
    NumberEntry("Length", |Encode(stream)|);
    ShowOne(Pair("Length", Int(|Encode(stream)|)));
    assert "<<" + (" /" + "Length" + " " + n) == "<< /Length " + n;
    assert Show(Dict(StreamEntries(stream))) == "<< /Length " + n + " >>";
    StreamMark(Dec(id) + " 0 obj\n" + ("<< /Length " + n + " >>"), stream + "\nendstream\nendobj\n");
    assert StreamTail(stream) == "\n" + (stream + "\nendstream\nendobj\n");
  }

  lemma StreamMark(head: string, tail: string)
    ensures head + "\nstream\n" + tail == head + "\n" + "stream" + ("\n" + tail)
  {
    assert "\nstream\n" == "\n" + "stream" + "\n";
  }
}
