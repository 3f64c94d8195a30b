/** The running byte count, the cross-reference table and the trailer of the written file. */
module PdfTable {
  import opened Common
  import opened Utf8
  import opened Decimal
  import opened PdfWriter
  import opened PdfSyntax
  import opened PdfReader
  import opened PdfLexing
  import opened PdfObjects
  import opened PdfPages

  // ----- Offsets -----------------------------------------------------------------------

  lemma {:induction false} ConcatAppend(a: seq<string>, b: seq<string>)
    ensures Concat(a + b) == Concat(a) + Concat(b)
  {
    if b == [] {
      assert a + b == a;
      assert Concat(a) + "" == Concat(a);
    } else {
      var c := a + b;
      assert c[..|c| - 1] == a + b[..|b| - 1];
      ConcatAppend(a, b[..|b| - 1]);
    }
  }

  lemma ConcatOne(part: string)
    ensures Concat([part]) == part
  {
    assert [part][..0] == [];
  }

  /** The body of the file: the header and objects. */
  function Body(objects: seq<string>): string {
    Encode(HEADER + Concat(objects))
  }

  /** The running byte count is the encoded length of everything emitted so far. */
  lemma {:induction false} EndOfIsLength(objects: seq<string>)
    ensures EndOf(objects) == |Body(objects)|
  {
    hide Encode;
    if objects == [] {
      assert HEADER + "" == HEADER;
    } else {
      var init, last := objects[..|objects| - 1], objects[|objects| - 1];
      EndOfIsLength(init);
      assert HEADER + Concat(objects) == HEADER + Concat(init) + last;
      EncodeAppend(HEADER + Concat(init), last);
    }
  }

  lemma BodyAppend(a: seq<string>, b: seq<string>)
    ensures Body(a + b) == Body(a) + Encode(Concat(b))
  {
    hide Encode;
    ConcatAppend(a, b);
    assert HEADER + (Concat(a) + Concat(b)) == HEADER + Concat(a) + Concat(b);
    EncodeAppend(HEADER + Concat(a), Concat(b));
  }

  /** The offset noted for an object is where its bytes start. */
  lemma ObjectStarts(objects: seq<string>, tail: string, k: nat)
    requires k < |objects|
    ensures EndOf(objects[..k]) <= |Body(objects)|
    ensures (Body(objects) + tail)[EndOf(objects[..k])..]
            == Encode(objects[k]) + (Encode(Concat(objects[k + 1..])) + tail)
  {
    hide Encode, EndOf, Concat, Body;
    var a, b := objects[..k], objects[k + 1..];
    EndOfIsLength(a);
    assert objects == a + ([objects[k]] + b);
    BodyAppend(a, [objects[k]] + b);
    ConcatAppend([objects[k]], b);
    ConcatOne(objects[k]);
    EncodeAppend(objects[k], Concat(b));
    assert Body(objects) + tail == Body(a) + (Encode(objects[k]) + (Encode(Concat(b)) + tail));
  }

  /** Everything behind the objects. */
  function Tail(offsets: seq<nat>, at: nat): string {
    XrefHead(|offsets|) + Concat(Entries(offsets)) + Trailer(|offsets|, at)
  }

  lemma EntryIsAscii(offset: nat)
    ensures IsAscii(Entry(offset))
  {
    assert forall i :: 0 <= i < |Padded(offset)| ==> IsDigit(Padded(offset)[i]);
  }

  lemma {:induction false} EntriesAreAscii(offsets: seq<nat>)
    ensures IsAscii(Concat(Entries(offsets)))
  {
    hide Entry;
    if offsets != [] {
      var init, last := offsets[..|offsets| - 1], offsets[|offsets| - 1];
      assert Entries(offsets)[..|offsets| - 1] == Entries(init);
      EntriesAreAscii(init);
      EntryIsAscii(last);
    }
  }

  lemma HeadIsAscii(n: nat)
    ensures IsAscii(XrefHead(n))
  {
    NumeralIsAscii(n + 1);
    assert IsAscii("xref\n0 ") && IsAscii("\n0000000000 65535 f \n");
  }

  lemma TrailerIsAscii(n: nat, at: nat)
    ensures IsAscii(Trailer(n, at))
  {
    NumeralIsAscii(n + 1);
    NumeralIsAscii(at);
    assert IsAscii("trailer\n<< /Size ") && IsAscii(" /Root 1 0 R >>\nstartxref\n") && IsAscii("\n%%EOF\n");
  }

  lemma TailIsAscii(offsets: seq<nat>, at: nat)
    ensures Encode(Tail(offsets, at)) == Tail(offsets, at)
  {
    hide XrefHead, Trailer, Concat, Entries, Encode;
    HeadIsAscii(|offsets|);
    EntriesAreAscii(offsets);
    TrailerIsAscii(|offsets|, at);
    EncodeAscii(Tail(offsets, at));
  }

  /** The file is its body and its tail; the tail starts at the offset that `startxref` gives. */
  lemma DocumentParts(lines: seq<string>)
    ensures var objects := AllObjects(lines);
            Document(lines) == Body(objects) + Tail(Offsets(objects), |Body(objects)|)
  {
    hide Encode, EndOf, Concat, AllObjects, XrefHead, Trailer, Entries, Offsets;
    var objects := AllObjects(lines);
    EndOfIsLength(objects);
    var offsets, at := Offsets(objects), EndOf(objects);
    var head, entries, trailer := XrefHead(|objects|), Entries(offsets), Trailer(|objects|, at);
    ConcatAppend([HEADER] + objects + [head] + entries, [trailer]);
    ConcatAppend([HEADER] + objects + [head], entries);
    ConcatAppend([HEADER] + objects, [head]);
    ConcatAppend([HEADER], objects);
    ConcatOne(HEADER);
    ConcatOne(head);
    ConcatOne(trailer);
    assert Concat(Output(lines)) == HEADER + Concat(objects) + Tail(offsets, at);
    EncodeAppend(HEADER + Concat(objects), Tail(offsets, at));
    TailIsAscii(offsets, at);
  }

  // ----- The table ---------------------------------------------------------------------

  lemma EntryReads(offset: nat)
    requires offset < 10_000_000_000
    ensures |Entry(offset)| == ENTRY && ReadEntry(Entry(offset)) == Some(XrefEntry(offset, 0, true))
  {
    hide Padded, Value;
    PaddedWidth(offset);
    ValuePadded(offset);
    var b := Entry(offset);
    assert b[..10] == Padded(offset);
    assert b[10..] == " 00000 n \n";
    assert b[11..16] == "00000";
    Zero("00000");
    assert b[16] == ' ' && b[17] == 'n' && b[18] == ' ' && b[19] == '\n';
  }

  lemma {:induction false} Zero(s: string)
    requires forall i :: 0 <= i < |s| ==> s[i] == '0'
    ensures AllDigits(s) && Value(s) == 0
  {
    if s != "" {
      Zero(s[..|s| - 1]);
    }
  }

  /** An entry for an offset of more than ten digits is no entry. */
  lemma WideEntryFails(offset: nat, after: string)
    requires offset >= 10_000_000_000
    ensures |Entry(offset)| > ENTRY && ReadEntry((Entry(offset) + after)[..ENTRY]).None?
  {
    hide Padded, Value;
    PaddedWidth(offset);
    var b := (Entry(offset) + after)[..ENTRY];
    assert b[10] == Padded(offset)[10];
    assert IsDigit(Padded(offset)[10]);
  }

  function TableOf(offsets: seq<nat>): (r: seq<XrefEntry>)
    ensures |r| == |offsets|
  {
    seq(|offsets|, i requires 0 <= i < |offsets| => XrefEntry(offsets[i], 0, true))
  }

  predicate AllFit(offsets: seq<nat>) {
    forall i :: 0 <= i < |offsets| ==> offsets[i] < 10_000_000_000
  }

  lemma EntriesCons(offsets: seq<nat>)
    requires offsets != []
    ensures Concat(Entries(offsets)) == Entry(offsets[0]) + Concat(Entries(offsets[1..]))
  {
    hide Entry, Concat;
    assert Entries(offsets) == [Entry(offsets[0])] + Entries(offsets[1..]);
    ConcatAppend([Entry(offsets[0])], Entries(offsets[1..]));
    ConcatOne(Entry(offsets[0]));
  }

  lemma {:induction false} WideEnough(offsets: seq<nat>)
    ensures |Concat(Entries(offsets))| >= ENTRY * |offsets|
    ensures AllFit(offsets) ==> |Concat(Entries(offsets))| == ENTRY * |offsets|
  {
    hide Entry, Concat, Padded;
    if offsets == [] {
      assert Concat(Entries(offsets)) == "" by { ConcatEmpty(); }
    } else {
      EntriesCons(offsets);
      WideEnough(offsets[1..]);
      if offsets[0] < 10_000_000_000 {
        EntryReads(offsets[0]);
      } else {
        WideEntryFails(offsets[0], "");
      }
      assert AllFit(offsets) ==> AllFit(offsets[1..]);
    }
  }

  lemma ConcatEmpty()
    ensures Concat([]) == ""
  {
  }

  /** The entries read back, unless one is too wide; then reading stops there. */
  lemma {:induction false} EntriesRead(offsets: seq<nat>, after: string)
    ensures ReadEntries(Concat(Entries(offsets)) + after, |offsets|)
            == if AllFit(offsets) then Some(TableOf(offsets)) else None
  {
    hide Entry, Concat, ReadEntry;
    if offsets != [] {
      var bs := Concat(Entries(offsets)) + after;
      var later := Concat(Entries(offsets[1..])) + after;
      EntriesCons(offsets);
      assert bs == Entry(offsets[0]) + later;
      assert AllFit(offsets) <==> offsets[0] < 10_000_000_000 && AllFit(offsets[1..]) by {
        assert forall i :: 0 < i < |offsets| ==> offsets[i] == offsets[1..][i - 1];
      }
      if offsets[0] < 10_000_000_000 {
        EntryReads(offsets[0]);
        assert bs[..ENTRY] == Entry(offsets[0]) && bs[ENTRY..] == later;
        EntriesRead(offsets[1..], after);
        assert TableOf(offsets) == [XrefEntry(offsets[0], 0, true)] + TableOf(offsets[1..]);
      } else {
        WideEntryFails(offsets[0], later);
      }
    }
  }

  const FREE := XrefEntry(0, 65535, false)

  lemma FreeEntryReads()
    ensures |"0000000000 65535 f \n"| == ENTRY && ReadEntry("0000000000 65535 f \n") == Some(FREE)
  {
    hide Value;
    var b := "0000000000 65535 f \n";
    assert b[..10] == "0000000000" && b[11..16] == "65535";
    Zero("0000000000");
    ValueDec(65535);
    assert Dec(65535) == "65535" by {
      assert Dec(655) == "655";
    }
  }

  lemma NextIntReads(gap: char, n: nat, after: string)
    requires IsWhite(gap) && Breaks(after)
    ensures NextInt([gap] + Dec(n) + after) == Some((n, after))
  {
    hide Lex, WordToken;
    assert [gap] + Dec(n) + after == [gap] + (Dec(n) + after);
    LexSpace(gap, Dec(n) + after);
    SpellsNumber(n);
    LexToken(Dec(n), TInt(n), after);
  }

  lemma XrefWord(after: string)
    requires Breaks(after)
    ensures Lex("xref" + after) == Some((TWord("xref"), after))
  {
    hide Lex, Value;
    LexWord("xref", after);
    assert !IsDigit("xref"[0]) && "xref"[0] != '-' && "xref"[0] != '+';
    assert WordToken("xref") == TWord("xref");
  }

  /** The table reads back exactly when every offset has at most ten digits. */
  lemma XrefReads(offsets: seq<nat>, trailer: string)
    ensures ReadXref(XrefHead(|offsets|) + Concat(Entries(offsets)) + trailer)
            == if AllFit(offsets) then Some(([FREE] + TableOf(offsets), trailer)) else None
  {
    hide Lex, NextInt, Concat, ReadEntry, Entries, TableOf, AllFit;
    var count := |offsets| + 1;
    var entries := Concat(Entries(offsets)) + trailer;
    var free := "0000000000 65535 f \n";
    var b3 := "\n" + (free + entries);
    var b2 := " " + Dec(count) + b3;
    var b1 := "\n" + "0" + b2;
    XrefSpelled(Dec(count), entries);
    assert XrefHead(|offsets|) + Concat(Entries(offsets)) + trailer == "xref" + b1;
    XrefWord(b1);
    assert Dec(0) == "0";
    NextIntReads('\n', 0, b2);
    NextIntReads(' ', count, b3);
    assert b3[1..] == free + entries;
    FreeEntryReads();
    WideEnough(offsets);
    assert (free + entries)[..ENTRY] == free && (free + entries)[ENTRY..] == entries;
    EntriesRead(offsets, trailer);
    if AllFit(offsets) {
      assert b3[1..][ENTRY * count..] == trailer by {
        assert |free + Concat(Entries(offsets))| == ENTRY * count;
        assert b3[1..] == free + Concat(Entries(offsets)) + trailer;
      }
    }
  }

  lemma XrefSpelled(n: string, entries: string)
    ensures "xref\n0 " + n + "\n0000000000 65535 f \n" + entries
            == "xref" + ("\n" + "0" + (" " + n + ("\n" + ("0000000000 65535 f \n" + entries))))
  {
    assert "xref\n0 " == "xref" + "\n" + "0" + " ";
    assert "\n0000000000 65535 f \n" == "\n" + "0000000000 65535 f \n";
  }

  // ----- The trailer -------------------------------------------------------------------

  function TrailerEntries(size: nat): seq<Pair> {
    [Pair("Size", Int(size)), Pair("Root", Reference(1, 0))]
  }

  lemma TrailerShown(size: nat)
    ensures Plain(Dict(TrailerEntries(size)))
    ensures Show(Dict(TrailerEntries(size))) == "<< /Size " + Dec(size) + " /Root 1 0 R >>"
  {
    hide ShowEntry, ShowEntries, RegularText, Dec;
    var a, b := Pair("Size", Int(size)), Pair("Root", Reference(1, 0));
    Words();
    NumberEntry("Size", size);
    ReferenceEntry("Root", 1);
    Digits();
    ShowOne(a);
    ShowEntriesAppend([a], b);
    assert [a] + [b] == TrailerEntries(size);
    assert ShowEntries(TrailerEntries(size)) == ShowEntry(a) + ShowEntry(b);
    assert ShowEntry(b) == " /Root 1 0 R";
    SizeSpelled(Dec(size));
    assert Show(Dict(TrailerEntries(size))) == "<<" + (ShowEntry(a) + ShowEntry(b)) + " >>";
  }

  lemma SizeSpelled(n: string)
    ensures "<<" + (" /" + "Size" + " " + n + " /Root 1 0 R") + " >>" == "<< /Size " + n + " /Root 1 0 R >>"
  {
    assert "<<" + " /" + "Size" + " " == "<< /Size ";
    assert " /Root 1 0 R" + " >>" == " /Root 1 0 R >>";
  }

  /** What stands from `startxref` on. */
  function Ending(at: nat): string {
    "startxref\n" + Dec(at) + "\n%%EOF\n"
  }

  lemma TrailerSpelled(n: nat, at: nat)
    ensures Plain(Dict(TrailerEntries(n + 1)))
    ensures Trailer(n, at) == "trailer" + "\n" + Show(Dict(TrailerEntries(n + 1))) + "\n" + Ending(at)
  {
    hide Show, Plain, TrailerEntries, Dec;
    TrailerShown(n + 1);
    assert "trailer\n<< /Size " == "trailer" + "\n" + "<< /Size ";
    assert " /Root 1 0 R >>\nstartxref\n" == " /Root 1 0 R >>" + "\n" + "startxref\n";
  }

  lemma TrailerReads(n: nat, at: nat)
    ensures ReadTrailer(Trailer(n, at)) == Some(Dict(TrailerEntries(n + 1)))
  {
    hide Reads, Show, TokensOf, LexUntil, ParseObj, Plain, Dec, TrailerEntries;
    var o := Dict(TrailerEntries(n + 1));
    TrailerSpelled(n, at);
    ReadsKeyword("trailer");
    ReadsGap('\n');
    ReadsShown(o);
    var text, ts := Show(o), TokensOf(o);
    ReadsAppend("trailer", [TWord("trailer")], false, "\n", [], true);
    ReadsAppend("trailer" + "\n", [TWord("trailer")] + [], true, text, ts, Closed(o));
    var all, us := "trailer" + "\n" + text + "\n", [TWord("trailer")] + [] + ts + [];
    ReadsAppend("trailer" + "\n" + text, [TWord("trailer")] + [] + ts, Closed(o), "\n", [], true);
    ReadsUntil(all, us, Ending(at));
    var rest := "\n" + Dec(at) + "\n%%EOF\n";
    assert Ending(at) == "startxref" + rest by {
      assert "startxref\n" == "startxref" + "\n";
    }
    LexStop("startxref", rest);
    assert us + [] == us && us[1..] == ts + [];
    ParseTokens(o, []);
  }

  // ----- The end of the file -----------------------------------------------------------

  lemma {:induction false} FindsLast(file: string, word: string, at: nat, pos: nat)
    requires word != "" && pos <= at && pos + |word| <= |file| && file[pos..pos + |word|] == word
    requires forall p :: pos < p < |file| ==> file[p] != word[0]
    ensures FindLast(file, word, at) == Some(pos)
    decreases at - pos
  {
    if pos < at {
      if at + |word| <= |file| {
        assert file[at..at + |word|][0] == file[at];
      }
      FindsLast(file, word, at - 1, pos);
    }
  }

  /** `startxref` gives the offset it was written with, whatever stands before it. */
  lemma StartXrefReads(before: string, at: nat)
    ensures StartXref(before + Ending(at)) == Some(at)
  {
    hide Lex, NextInt, FindLast;
    var file, pos := before + Ending(at), |before|;
    var rest := "\n" + Dec(at) + "\n%%EOF\n";
    assert Ending(at) == "startxref" + rest by {
      assert "startxref\n" == "startxref" + "\n";
    }
    assert file[pos..pos + 9] == "startxref";
    NoOther(at);
    forall p | pos < p < |file|
      ensures file[p] != 's'
    {
      assert file[p] == Ending(at)[p - pos];
    }
    FindsLast(file, "startxref", |file|, pos);
    assert file[pos..][9..] == rest;
    NextIntReads('\n', at, "\n%%EOF\n");
  }

  lemma NoOther(at: nat)
    ensures forall i :: 1 <= i < |Ending(at)| ==> Ending(at)[i] != 's'
  {
    var d := Dec(at);
    assert forall i :: 0 <= i < |d| ==> IsDigit(d[i]);
    forall i | 1 <= i < |Ending(at)|
      ensures Ending(at)[i] != 's'
    {
      if i < 10 {
        assert Ending(at)[i] == "startxref\n"[i];
      } else if i < 10 + |d| {
        assert Ending(at)[i] == d[i - 10];
      } else {
        assert Ending(at)[i] == "\n%%EOF\n"[i - 10 - |d|];
      }
    }
  }
}
