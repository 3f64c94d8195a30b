/** Printed objects: the text of an object reads back as the object. */
module PdfObjects {
  import opened Common
  import opened Utf8
  import opened Decimal
  import opened PdfSyntax
  import opened PdfReader
  import opened PdfLexing

  predicate RegularText(name: string) {
    forall i :: 0 <= i < |name| ==> IsRegular(name[i]) && name[i] < '\U{80}'
  }

  /** Objects without strings and negative numbers, of names that need no escape. */
  predicate Plain(o: Obj) {
    match o
    case Int(n) => n >= 0
    case Name(name) => RegularText(name)
    case Str(_) => false
    case Reference(_, _) => true
    case Arr(items) => forall i :: 0 <= i < |items| ==> Plain(items[i])
    case Dict(entries) => forall i :: 0 <= i < |entries| ==> RegularText(entries[i].key) && Plain(entries[i].value)
  }

  // ----- Text and tokens of an object --------------------------------------------------

  function Show(o: Obj): string
    requires Plain(o)
  {
    match o
    case Int(n) => Dec(n)
    case Name(name) => "/" + name
    case Reference(num, gen) => Dec(num) + " " + Dec(gen) + " R"
    case Arr(items) => "[" + ShowItems(items) + "]"
    case Dict(entries) => "<<" + ShowEntries(entries) + " >>"
  }

  function ShowItems(items: seq<Obj>): string
    requires forall i :: 0 <= i < |items| ==> Plain(items[i])
  {
    if items == [] then "" else Show(items[0]) + ShowTail(items[1..])
  }

  /** Items with a space in front of each. */
  function ShowTail(items: seq<Obj>): string
    requires forall i :: 0 <= i < |items| ==> Plain(items[i])
  {
    if items == [] then "" else " " + Show(items[0]) + ShowTail(items[1..])
  }

  function ShowEntry(p: Pair): string
    requires RegularText(p.key) && Plain(p.value)
  {
    " /" + p.key + " " + Show(p.value)
  }

  function ShowEntries(entries: seq<Pair>): string
    requires forall i :: 0 <= i < |entries| ==> RegularText(entries[i].key) && Plain(entries[i].value)
  {
    if entries == [] then "" else ShowEntry(entries[0]) + ShowEntries(entries[1..])
  }

  function TokensOf(o: Obj): seq<Token>
    requires Plain(o)
  {
    match o
    case Int(n) => [TInt(n)]
    case Name(name) => [TName(name)]
    case Reference(num, gen) => [TInt(num), TInt(gen), TWord("R")]
    case Arr(items) => [ArrOpen] + TokensOfItems(items) + [ArrClose]
    case Dict(entries) => [DictOpen] + TokensOfEntries(entries) + [DictClose]
  }

  function TokensOfItems(items: seq<Obj>): seq<Token>
    requires forall i :: 0 <= i < |items| ==> Plain(items[i])
  {
    if items == [] then [] else TokensOf(items[0]) + TokensOfItems(items[1..])
  }

  function TokensOfEntries(entries: seq<Pair>): seq<Token>
    requires forall i :: 0 <= i < |entries| ==> RegularText(entries[i].key) && Plain(entries[i].value)
  {
    if entries == [] then [] else [TName(entries[0].key)] + TokensOf(entries[0].value) + TokensOfEntries(entries[1..])
  }

  lemma NumeralIsAscii(n: nat)
    ensures IsAscii(Dec(n))
  {
    assert forall i :: 0 <= i < |Dec(n)| ==> IsDigit(Dec(n)[i]);
  }

  lemma {:induction false} ShownIsAscii(o: Obj)
    requires Plain(o)
    ensures IsAscii(Show(o))
    decreases o, 1
  {
    match o {
      case Int(n) => NumeralIsAscii(n);
      case Reference(num, gen) =>
        NumeralIsAscii(num);
        NumeralIsAscii(gen);
      case Arr(items) =>
        ItemsAreAscii(items);
      case Dict(entries) => EntriesAreAscii(entries);
      case Name(_) =>
      case Str(_) =>
    }
  }

  lemma {:induction false} ItemsAreAscii(items: seq<Obj>)
    requires forall i :: 0 <= i < |items| ==> Plain(items[i])
    ensures IsAscii(ShowItems(items)) && IsAscii(ShowTail(items))
    decreases items, 0
  {
    hide Show;
    if items != [] {
      ShownIsAscii(items[0]);
      ItemsAreAscii(items[1..]);
    }
  }

  lemma {:induction false} EntriesAreAscii(entries: seq<Pair>)
    requires forall i :: 0 <= i < |entries| ==> RegularText(entries[i].key) && Plain(entries[i].value)
    ensures IsAscii(ShowEntries(entries))
    decreases entries, 0
  {
    hide Show;
    if entries != [] {
      ShownIsAscii(entries[0].value);
      assert IsAscii(entries[0].key);
      assert IsAscii(ShowEntry(entries[0]));
      EntriesAreAscii(entries[1..]);
    }
  }

  // ----- Tokens read back as objects ---------------------------------------------------

  /** Behind an integer, such tokens do not make it a reference. */
  predicate Calm(ts: seq<Token>) {
    |ts| >= 2 && ts[0].TInt? ==> ts[1] != TWord("R")
  }

  lemma Heads(o: Obj)
    requires Plain(o)
    ensures TokensOf(o) != [] && TokensOf(o)[0] != TWord("R")
    ensures |TokensOf(o)| >= 2 && TokensOf(o)[0].TInt? ==> TokensOf(o)[1] != TWord("R")
  {
  }

  lemma CalmItems(items: seq<Obj>, rest: seq<Token>)
    requires forall i :: 0 <= i < |items| ==> Plain(items[i])
    ensures Calm(TokensOfItems(items) + [ArrClose] + rest)
  {
    hide TokensOf;
    if items != [] {
      Heads(items[0]);
      if |items| > 1 {
        Heads(items[1]);
      }
    }
  }

  lemma {:induction false} ParseTokens(o: Obj, rest: seq<Token>)
    requires Plain(o) && (o.Int? ==> Calm(rest))
    ensures ParseObj(TokensOf(o) + rest) == Some((o, rest))
    decreases o, 1
  {
    hide ParseItems, ParsePairs, TokensOfItems, TokensOfEntries;
    var ts := TokensOf(o) + rest;
    match o {
      case Arr(items) =>
        assert ts[1..] == TokensOfItems(items) + [ArrClose] + rest;
        ParseItemTokens(items, rest);
      case Dict(entries) =>
        assert ts[1..] == TokensOfEntries(entries) + [DictClose] + rest;
        ParseEntryTokens(entries, rest);
      case Reference(num, gen) =>
        assert ts[3..] == rest;
      case Int(_) =>
        assert ts[1..] == rest;
      case Name(_) =>
        assert ts[1..] == rest;
      case Str(_) =>
    }
  }

  lemma {:induction false} ParseItemTokens(items: seq<Obj>, rest: seq<Token>)
    requires forall i :: 0 <= i < |items| ==> Plain(items[i])
    ensures ParseItems(TokensOfItems(items) + [ArrClose] + rest) == Some((items, rest))
    decreases items, 0
  {
    hide ParseObj, TokensOf;
    var ts := TokensOfItems(items) + [ArrClose] + rest;
    if items == [] {
      assert ts == [ArrClose] + rest && ts[1..] == rest;
    } else {
      var after := TokensOfItems(items[1..]) + [ArrClose] + rest;
      assert ts == TokensOf(items[0]) + after;
      CalmItems(items[1..], rest);
      ParseTokens(items[0], after);
      ParseItemTokens(items[1..], rest);
      ItemDoesNotClose(items[0]);
      assert [items[0]] + items[1..] == items;
    }
  }

  lemma ItemDoesNotClose(o: Obj)
    requires Plain(o)
    ensures TokensOf(o) != [] && TokensOf(o)[0] != ArrClose
  {
  }

  lemma {:induction false} ParseEntryTokens(entries: seq<Pair>, rest: seq<Token>)
    requires forall i :: 0 <= i < |entries| ==> RegularText(entries[i].key) && Plain(entries[i].value)
    ensures ParsePairs(TokensOfEntries(entries) + [DictClose] + rest) == Some((entries, rest))
    decreases entries, 0
  {
    hide ParseObj, TokensOf;
    var ts := TokensOfEntries(entries) + [DictClose] + rest;
    if entries == [] {
      assert ts == [DictClose] + rest && ts[1..] == rest;
    } else {
      var after := TokensOfEntries(entries[1..]) + [DictClose] + rest;
      assert ts == [TName(entries[0].key)] + (TokensOf(entries[0].value) + after);
      assert ts[1..] == TokensOf(entries[0].value) + after;
      assert !after[0].TInt?;
      ParseTokens(entries[0].value, after);
      ParseEntryTokens(entries[1..], rest);
      assert [Pair(entries[0].key, entries[0].value)] + entries[1..] == entries;
    }
  }

  // ----- Text reads back as tokens -----------------------------------------------------

  predicate Closed(o: Obj) {
    o.Arr? || o.Dict?
  }

  lemma ReadsReference(num: nat, gen: nat)
    ensures Reads(Dec(num) + " " + Dec(gen) + " R", [TInt(num), TInt(gen), TWord("R")], false)
  {
    hide Reads;
    ReadsNumber(num);
    ReadsNumber(gen);
    ReadsKeyword("R");
    ReadsGap(' ');
    ReadsAppend(Dec(num), [TInt(num)], false, " ", [], true);
    ReadsAppend(Dec(num) + " ", [TInt(num)] + [], true, Dec(gen), [TInt(gen)], false);
    ReadsAppend(" ", [], true, "R", [TWord("R")], false);
    assert " " + "R" == " R";
    ReadsAppend(Dec(num) + " " + Dec(gen), [TInt(num)] + [] + [TInt(gen)], false, " R", [] + [TWord("R")], false);
    assert [TInt(num)] + [] + [TInt(gen)] + ([] + [TWord("R")]) == [TInt(num), TInt(gen), TWord("R")];
  }

  lemma {:induction false} ReadsShown(o: Obj)
    requires Plain(o)
    ensures Reads(Show(o), TokensOf(o), Closed(o))
    decreases o, 1
  {
    hide Reads;
    match o {
      case Int(n) => ReadsNumber(n);
      case Name(name) => ReadsToken("/" + name, TName(name));
      case Reference(num, gen) => ReadsReference(num, gen);
      case Arr(items) =>
        ReadsItems(items);
        ReadsToken("[", ArrOpen);
        ReadsToken("]", ArrClose);
        ReadsAppend("[", [ArrOpen], true, ShowItems(items), TokensOfItems(items), false);
        ReadsAppend("[" + ShowItems(items), [ArrOpen] + TokensOfItems(items), false, "]", [ArrClose], true);
      case Dict(entries) =>
        ReadsEntries(entries);
        ReadsToken("<<", DictOpen);
        ReadsToken(">>", DictClose);
        ReadsGap(' ');
        ReadsAppend(" ", [], true, ">>", [DictClose], true);
        assert " " + ">>" == " >>" && [] + [DictClose] == [DictClose];
        ReadsAppend("<<", [DictOpen], true, ShowEntries(entries), TokensOfEntries(entries), false);
        ReadsAppend("<<" + ShowEntries(entries), [DictOpen] + TokensOfEntries(entries), false, " >>", [DictClose], true);
    }
  }

  lemma ReadsUntil(text: string, ts: seq<Token>, after: string)
    requires Reads(text, ts, true)
    ensures LexUntil(text + after) == Before(ts, LexUntil(after))
  {
  }

  /** What may be followed by anything may be followed by a break. */
  lemma ReadsOpen(text: string, ts: seq<Token>, closed: bool)
    requires Reads(text, ts, closed)
    ensures Reads(text, ts, false)
  {
  }

  lemma ReadsNothing()
    ensures Reads("", [], true)
  {
    forall after: string
      ensures LexUntil("" + after) == Before([], LexUntil(after))
    {
      assert "" + after == after;
      if LexUntil(after).Some? {
        assert [] + LexUntil(after).value.tokens == LexUntil(after).value.tokens;
      }
    }
  }

  lemma {:induction false} ReadsItems(items: seq<Obj>)
    requires forall i :: 0 <= i < |items| ==> Plain(items[i])
    ensures Reads(ShowItems(items), TokensOfItems(items), false)
    decreases items, 0
  {
    hide Reads;
    if items == [] {
      ReadsNothing();
      ReadsOpen("", [], true);
    } else {
      ReadsShown(items[0]);
      ReadsOpen(Show(items[0]), TokensOf(items[0]), Closed(items[0]));
      ReadsTail(items[1..]);
      if items[1..] == [] {
        assert Show(items[0]) + "" == Show(items[0]);
        assert TokensOf(items[0]) + [] == TokensOf(items[0]);
      } else {
        ReadsAppend(Show(items[0]), TokensOf(items[0]), false, ShowTail(items[1..]), TokensOfItems(items[1..]), false);
      }
    }
  }

  lemma {:induction false} ReadsTail(items: seq<Obj>)
    requires forall i :: 0 <= i < |items| ==> Plain(items[i])
    ensures Reads(ShowTail(items), TokensOfItems(items), false)
    decreases items, 0
  {
    hide Reads;
    if items == [] {
      ReadsNothing();
      ReadsOpen("", [], true);
    } else {
      ReadsShown(items[0]);
      ReadsOpen(Show(items[0]), TokensOf(items[0]), Closed(items[0]));
      ReadsGap(' ');
      ReadsAppend(" ", [], true, Show(items[0]), TokensOf(items[0]), false);
      assert [] + TokensOf(items[0]) == TokensOf(items[0]);
      ReadsTail(items[1..]);
      if items[1..] == [] {
        assert " " + Show(items[0]) + "" == " " + Show(items[0]);
        assert TokensOf(items[0]) + [] == TokensOf(items[0]);
      } else {
        ReadsAppend(" " + Show(items[0]), TokensOf(items[0]), false, ShowTail(items[1..]), TokensOfItems(items[1..]), false);
      }
    }
  }

  lemma ReadsEntry(p: Pair)
    requires RegularText(p.key) && Plain(p.value)
    requires Reads(Show(p.value), TokensOf(p.value), false)
    ensures Reads(ShowEntry(p), [TName(p.key)] + TokensOf(p.value), false)
  {
    hide Reads, Show, TokensOf;
    ReadsGap(' ');
    ReadsToken("/" + p.key, TName(p.key));
    ReadsAppend(" ", [], true, "/" + p.key, [TName(p.key)], false);
    assert " " + ("/" + p.key) == " /" + p.key && [] + [TName(p.key)] == [TName(p.key)];
    ReadsAppend(" /" + p.key, [TName(p.key)], false, " ", [], true);
    assert [TName(p.key)] + [] == [TName(p.key)];
    ReadsAppend(" /" + p.key + " ", [TName(p.key)], true, Show(p.value), TokensOf(p.value), false);
  }

  lemma {:induction false} ReadsEntries(entries: seq<Pair>)
    requires forall i :: 0 <= i < |entries| ==> RegularText(entries[i].key) && Plain(entries[i].value)
    ensures Reads(ShowEntries(entries), TokensOfEntries(entries), false)
    decreases entries, 0
  {
    hide Reads;
    if entries == [] {
      ReadsNothing();
      ReadsOpen("", [], true);
    } else {
      var p := entries[0];
      ReadsShown(p.value);
      ReadsOpen(Show(p.value), TokensOf(p.value), Closed(p.value));
      ReadsEntry(p);
      ReadsEntries(entries[1..]);
      var ts := [TName(p.key)] + TokensOf(p.value);
      if entries[1..] == [] {
        assert ShowEntry(p) + "" == ShowEntry(p);
        assert ts + [] == ts;
      } else {
        ReadsAppend(ShowEntry(p), ts, false, ShowEntries(entries[1..]), TokensOfEntries(entries[1..]), false);
      }
    }
  }

  // ----- Indirect objects --------------------------------------------------------------

  /** The text of an indirect object up to the keyword that ends it. */
  function ShowIndirect(id: nat, o: Obj, stop: string): string
    requires Plain(o)
  {
    Dec(id) + " 0 obj\n" + Show(o) + "\n" + stop
  }

  lemma ReadsHead(id: nat)
    ensures Reads(Dec(id) + " 0 obj\n", [TInt(id), TInt(0), TWord("obj")], true)
  {
    hide Reads;
    ReadsNumber(id);
    ReadsNumber(0);
    assert Dec(0) == "0";
    ReadsKeyword("obj");
    ReadsGap(' ');
    ReadsGap('\n');
    ReadsAppend(" ", [], true, "0", [TInt(0)], false);
    ReadsAppend(" " + "0", [] + [TInt(0)], false, " ", [], true);
    ReadsAppend(" " + "0" + " ", [] + [TInt(0)] + [], true, "obj", [TWord("obj")], false);
    ReadsAppend(" " + "0" + " " + "obj", [] + [TInt(0)] + [] + [TWord("obj")], false, "\n", [], true);
    var text, ts := " " + "0" + " " + "obj" + "\n", [] + [TInt(0)] + [] + [TWord("obj")] + [];
    assert text == " 0 obj\n" && ts == [TInt(0), TWord("obj")];
    ReadsAppend(Dec(id), [TInt(id)], false, " 0 obj\n", [TInt(0), TWord("obj")], true);
    assert [TInt(id)] + [TInt(0), TWord("obj")] == [TInt(id), TInt(0), TWord("obj")];
  }

  /** A printed indirect object reads back as the object, whatever follows its closing keyword. */
  lemma ReadsBack(id: nat, o: Obj, stop: string, after: string)
    requires Plain(o)
    requires stop == "endobj" || stop == "stream"
    requires Breaks(after)
    ensures ReadIndirect(ShowIndirect(id, o, stop) + after, id) == Some(Indirect(o, TWord(stop), after))
  {
    hide Reads, Show, TokensOf, LexUntil, ParseObj;
    ReadsHead(id);
    ReadsShown(o);
    ReadsGap('\n');
    var head, body := Dec(id) + " 0 obj\n", Show(o);
    var hs, ts := [TInt(id), TInt(0), TWord("obj")], TokensOf(o);
    ReadsAppend(head, hs, true, body, ts, Closed(o));
    ReadsAppend(head + body, hs + ts, Closed(o), "\n", [], true);
    var text := head + body + "\n";
    assert ShowIndirect(id, o, stop) + after == text + (stop + after);
    LexStop(stop, after);
    ReadsUntil(text, hs + ts + [], stop + after);
    assert LexUntil(text + (stop + after)) == Some(Stretch(hs + ts + [] + [], TWord(stop), after));
    assert hs + ts + [] + [] == hs + ts && (hs + ts)[3..] == ts + [];
    ParseTokens(o, []);
  }
}
