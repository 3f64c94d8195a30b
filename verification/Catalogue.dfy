/** Drafts from catalogue text: lines with the same SKU are folded into one stored draft. */
module Catalogue {
  import opened Common
  import opened Decimal
  import opened CatalogueText

  // ----- Drafts ------------------------------------------------------------------------

  /** One extracted fact; the confidence is in tenths. */
  datatype Extracted = Extracted(name: string, value: string, line: nat, confidence: nat)

  /** A product draft. `productType` is also its category. */
  datatype Draft = Draft(
    id: nat, sku: Option<string>, title: Option<string>, price: Option<nat>, currency: Option<string>, productType: string,
    colour: string, size: string, material: string, image: string,
    errors: set<string>, evidence: set<string>, extracted: seq<Extracted>)

  const DUPLICATE := "duplicate_sku_evidence"

  /** An accepted line and its number. */
  datatype Entry = Entry(line: nat, parts: Parts)

  /** `s.lower()`, as far as the words looked for below can tell. */
  function Lower(s: string): string {
    seq(|s|, i requires 0 <= i < |s| =>
      if 'A' <= s[i] <= 'Z' then (s[i] as int + 32) as char else if s[i] == '\U{212A}' then 'k' else s[i])
  }

  function ProductType(title: string): string {
    var t := Lower(title);
    if Contains(t, "jacket") then "outerwear"
    else if Contains(t, "tee") then "tops"
    else if Contains(t, "trouser") then "bottoms"
    else if Contains(t, "daypack") then "bags"
    else "accessories"
  }

  function OrNone(s: string): Option<string> {
    if s == "" then None else Some(s)
  }

  function EvidenceRef(source: string, line: nat): string {
    source + "#page=1&line=" + Dec(line)
  }

  function Fact(name: string, value: string, line: nat): Extracted {
    Extracted(name, value, line, if value == "" then 0 else 8)
  }

  /** The ten facts of a line. */
  function Facts(e: Entry): seq<Extracted> {
    var p := e.parts;
    [Fact("sku", p.sku, e.line), Fact("title", p.title, e.line), Fact("price", p.price, e.line),
     Fact("currency", if DigitsOf(p.price) == "" then "" else "INR", e.line),
     Fact("product_type", ProductType(p.title), e.line), Fact("category", ProductType(p.title), e.line),
     Fact("colour", p.colour, e.line), Fact("size", p.size, e.line), Fact("material", p.material, e.line),
     Fact("image", p.image, e.line)]
  }

  /** The draft a line makes by itself. */
  function FreshDraft(e: Entry, source: string, id: nat): Draft {
    var p := e.parts;
    Draft(id, OrNone(p.sku), OrNone(p.title), PriceOf(p.price), if DigitsOf(p.price) == "" then None else Some("INR"),
          ProductType(p.title), p.colour, p.size, p.material, p.image, {}, {EvidenceRef(source, e.line)}, Facts(e))
  }

  /** The draft of a line whose SKU is already stored. */
  function Merge(existing: Draft, d: Draft): Draft {
    d.(id := existing.id, errors := existing.errors + {DUPLICATE}, evidence := existing.evidence + d.evidence,
       extracted := existing.extracted + d.extracted)
  }

  // ----- The store ---------------------------------------------------------------------

  function IndexOfId(rows: seq<Draft>, id: nat): (k: nat)
    ensures k <= |rows|
    ensures k < |rows| ==> rows[k].id == id
    ensures forall i :: 0 <= i < k ==> rows[i].id != id
  {
    if rows == [] || rows[0].id == id then 0 else 1 + IndexOfId(rows[1..], id)
  }

  function IndexOfSku(rows: seq<Draft>, sku: string): (k: nat)
    ensures k <= |rows|
    ensures k < |rows| ==> rows[k].sku == Some(sku)
    ensures forall i :: 0 <= i < k ==> rows[i].sku != Some(sku)
  {
    if rows == [] || rows[0].sku == Some(sku) then 0 else 1 + IndexOfSku(rows[1..], sku)
  }

  function Find(rows: seq<Draft>, sku: string): Option<Draft> {
    var k := IndexOfSku(rows, sku);
    if k < |rows| then Some(rows[k]) else None
  }

  /** Replace the row of the same id, or append. */
  function PutRow(rows: seq<Draft>, d: Draft): seq<Draft> {
    var k := IndexOfId(rows, d.id);
    if k < |rows| then rows[k := d] else rows + [d]
  }

  datatype Table = Table(rows: seq<Draft>, nextId: nat)

  /** What one accepted line stores. */
  function DraftFor(t: Table, e: Entry, source: string): Draft {
    var d := FreshDraft(e, source, t.nextId);
    if d.sku.None? then d
    else
      match Find(t.rows, d.sku.value)
      case None => d
      case Some(existing) => Merge(existing, d)
  }

  function Ingest(t: Table, e: Entry, source: string): Table {
    Table(PutRow(t.rows, DraftFor(t, e, source)), t.nextId + 1)
  }

  function IngestAll(t: Table, es: seq<Entry>, source: string): Table {
    if es == [] then t else Ingest(IngestAll(t, es[..|es| - 1], source), es[|es| - 1], source)
  }

  /** What the call returns: each draft as it was when it was stored. */
  function Snapshots(t: Table, es: seq<Entry>, source: string): (r: seq<Draft>)
    ensures |r| == |es|
  {
    if es == [] then []
    else
      Snapshots(t, es[..|es| - 1], source)
      + [DraftFor(IngestAll(t, es[..|es| - 1], source), es[|es| - 1], source)]
  }

  /** The accepted lines; `enumerate` starts at one. */
  function Entries(lines: seq<string>): seq<Entry> {
    if lines == [] then []
    else
      var n := |lines|;
      Entries(lines[..n - 1])
      + (match ParseLine(lines[n - 1])
         case None => []
         case Some(parts) => [Entry(n, parts)])
  }

  // ----- In place ----------------------------------------------------------------------

  class DraftStore {
    var rows: seq<Draft>
    var nextId: nat

    ghost function Contents(): Table
      reads this
    {
      Table(rows, nextId)
    }

    constructor ()
      ensures Contents() == Table([], 0)
    {
      rows, nextId := [], 0;
    }

    /** `new_id` */
    method NewId() returns (id: nat)
      modifies this`nextId
      ensures id == old(nextId) && nextId == old(nextId) + 1
    {
      id := nextId;
      nextId := nextId + 1;
    }

    /** `find_one` */
    method FindOne(sku: string) returns (found: Option<Draft>)
      ensures found == Find(rows, sku)
    {
      for i := 0 to |rows|
        invariant forall j :: 0 <= j < i ==> rows[j].sku != Some(sku)
      {
        if rows[i].sku == Some(sku) {
          return Some(rows[i]);
        }
      }
      found := None;
    }

    method Put(d: Draft)
      modifies this`rows
      ensures rows == PutRow(old(rows), d)
    {
      for i := 0 to |rows|
        invariant rows == old(rows)
        invariant forall j :: 0 <= j < i ==> rows[j].id != d.id
      {
        if rows[i].id == d.id {
          rows := rows[i := d];
          return;
        }
      }
      rows := rows + [d];
    }

    /** `pdf_text_to_drafts` */
    method PdfTextToDrafts(text: string, source: string) returns (drafts: seq<Draft>)
      modifies this
      ensures Contents() == IngestAll(old(Contents()), Entries(SplitLines(text)), source)
      ensures drafts == Snapshots(old(Contents()), Entries(SplitLines(text)), source)
    {
      hide ParseLine, FreshDraft, PutRow, Find, SplitLines;
      drafts := [];
      var lines := SplitLines(text);
      ghost var start := Contents();
      for i := 0 to |lines|
        invariant Contents() == IngestAll(start, Entries(lines[..i]), source)
        invariant drafts == Snapshots(start, Entries(lines[..i]), source)
      {
        assert lines[..i + 1][..i] == lines[..i];
        var parsed := ParseLine(lines[i]);
        ghost var before := Entries(lines[..i]);
        match parsed {
          case None =>
            assert Entries(lines[..i + 1]) == before;
          case Some(parts) =>
            var e := Entry(i + 1, parts);
            assert Entries(lines[..i + 1]) == before + [e];
            assert (before + [e])[..|before|] == before;
            var id := NewId();
            var draft := FreshDraft(e, source, id);
            if draft.sku.Some? {
              var existing := FindOne(draft.sku.value);
              match existing {
                case None =>
                case Some(old_) => draft := Merge(old_, draft);
              }
            }
            Put(draft);
            drafts := drafts + [draft];
        }
      }
      assert lines[..|lines|] == lines;
    }
  }

  // ----- What a SKU amounts to ---------------------------------------------------------

  /** The accepted lines of a SKU, in order. */
  function Own(es: seq<Entry>, sku: string): seq<Entry> {
    if es == [] then []
    else
      var e := es[|es| - 1];
      Own(es[..|es| - 1], sku) + (if e.parts.sku == sku then [e] else [])
  }

  /** Where a SKU is first seen. */
  function FirstSeen(es: seq<Entry>, sku: string): (k: nat)
    ensures k <= |es|
    ensures k < |es| ==> es[k].parts.sku == sku
    ensures forall i :: 0 <= i < k ==> es[i].parts.sku != sku
  {
    if es == [] || es[0].parts.sku == sku then 0 else 1 + FirstSeen(es[1..], sku)
  }

  function AllFacts(es: seq<Entry>): seq<Extracted> {
    if es == [] then [] else AllFacts(es[..|es| - 1]) + Facts(es[|es| - 1])
  }

  function Evidence(es: seq<Entry>, source: string): set<string> {
    set e | e in es :: EvidenceRef(source, e.line)
  }

  /**
   What is to be stored for a SKU, told from its lines alone: plain fields of the last line,
   the identity of the first, evidence and facts of all, and the mark of a duplicate from
   the second line on.
   */
  function Expected(es: seq<Entry>, sku: string, source: string): Draft
    requires Own(es, sku) != []
  {
    var own := Own(es, sku);
    FreshDraft(own[|own| - 1], source, FirstSeen(es, sku)).(
      errors := if |own| >= 2 then {DUPLICATE} else {}, evidence := Evidence(own, source), extracted := AllFacts(own))
  }

  /** Entries without a SKU are stored one by one. */
  function Nameless(rows: seq<Draft>): seq<Draft> {
    if rows == [] then []
    else Nameless(rows[..|rows| - 1]) + (if rows[|rows| - 1].sku.None? then [rows[|rows| - 1]] else [])
  }

  function NamelessDrafts(es: seq<Entry>, source: string): seq<Draft> {
    if es == [] then []
    else
      NamelessDrafts(es[..|es| - 1], source)
      + (if es[|es| - 1].parts.sku == "" then [FreshDraft(es[|es| - 1], source, |es| - 1)] else [])
  }

  /** No id and no SKU twice. */
  predicate Distinct(rows: seq<Draft>) {
    forall i, j :: 0 <= i < j < |rows| ==> rows[i].id != rows[j].id && (rows[i].sku.Some? ==> rows[i].sku != rows[j].sku)
  }

  const EMPTY := Table([], 0)

  /** The table after the lines `es`. */
  ghost predicate Folded(t: Table, es: seq<Entry>, source: string) {
    Distinct(t.rows) && t.nextId == |es|
    && (forall i :: 0 <= i < |t.rows| ==> t.rows[i].id < t.nextId)
    && Nameless(t.rows) == NamelessDrafts(es, source)
    && (forall sku :: sku != "" ==> Find(t.rows, sku) == if Own(es, sku) == [] then None else Some(Expected(es, sku, source)))
    && (forall i :: 0 <= i < |t.rows| ==> t.rows[i].sku != Some(""))
  }

  /** The row with the id of `d` is the row with its SKU. */
  predicate Aligned(rows: seq<Draft>, d: Draft) {
    forall i :: 0 <= i < |rows| ==> (rows[i].id == d.id <==> d.sku.Some? && rows[i].sku == d.sku)
  }

  lemma PutKeepsDistinct(rows: seq<Draft>, d: Draft)
    requires Distinct(rows) && Aligned(rows, d)
    ensures Distinct(PutRow(rows, d))
  {
  }

  lemma PutFinds(rows: seq<Draft>, d: Draft, sku: string)
    requires Distinct(rows) && Aligned(rows, d)
    ensures Find(PutRow(rows, d), sku) == if d.sku == Some(sku) then Some(d) else Find(rows, sku)
  {
    var k := IndexOfId(rows, d.id);
    var after := PutRow(rows, d);
    var a, b := IndexOfSku(rows, sku), IndexOfSku(after, sku);
    if k < |rows| {
      assert rows[k].sku == d.sku;
      assert forall i :: 0 <= i < |rows| ==> rows[i].sku == after[i].sku;
      assert a == b;
    } else {
      assert forall i :: 0 <= i < |rows| ==> rows[i] == after[i];
      assert after[|rows|] == d;
      if a < |rows| {
        assert after[a].sku == Some(sku);
        assert rows[a].id != d.id;
        assert b == a;
      }
    }
  }

  lemma {:induction false} NamelessUpdate(rows: seq<Draft>, k: nat, d: Draft)
    requires k < |rows| && rows[k].sku.Some? && d.sku.Some?
    ensures Nameless(rows[k := d]) == Nameless(rows)
  {
    var n := |rows| - 1;
    if k < n {
      assert rows[k := d][..n] == rows[..n][k := d];
      NamelessUpdate(rows[..n], k, d);
    } else {
      assert rows[k := d][..n] == rows[..n];
    }
  }

  lemma OwnGrows(es: seq<Entry>, e: Entry, sku: string)
    ensures Own(es + [e], sku) == Own(es, sku) + (if e.parts.sku == sku then [e] else [])
  {
    assert (es + [e])[..|es|] == es;
  }

  lemma {:induction false} OwnIffSeen(es: seq<Entry>, sku: string)
    ensures Own(es, sku) != [] <==> exists i :: 0 <= i < |es| && es[i].parts.sku == sku
  {
    if es != [] {
      var init := es[..|es| - 1];
      OwnIffSeen(init, sku);
      if Own(init, sku) != [] {
        var i :| 0 <= i < |init| && init[i].parts.sku == sku;
        assert es[i].parts.sku == sku;
      }
      if i :| 0 <= i < |es| && es[i].parts.sku == sku {
        if i < |init| {
          assert init[i].parts.sku == sku;
        }
      }
    }
  }

  lemma FirstSeenStays(es: seq<Entry>, e: Entry, sku: string)
    ensures Own(es, sku) != [] ==> FirstSeen(es + [e], sku) == FirstSeen(es, sku)
    ensures Own(es, sku) == [] && e.parts.sku == sku ==> FirstSeen(es + [e], sku) == |es|
  {
    OwnIffSeen(es, sku);
    var all := es + [e];
    var k := FirstSeen(all, sku);
    assert forall i :: 0 <= i < |es| ==> all[i] == es[i];
    assert all[|es|] == e;
  }

  /** One more line of a SKU, told from the lines and told from the stored draft. */
  lemma ExpectedGrows(es: seq<Entry>, e: Entry, sku: string, source: string)
    requires e.parts.sku == sku
    ensures Own(es + [e], sku) != []
    ensures var d := FreshDraft(e, source, |es|);
            Expected(es + [e], sku, source) == if Own(es, sku) == [] then d else Merge(Expected(es, sku, source), d)
  {
    hide FirstSeen, Own, Facts, EvidenceRef;
    OwnGrows(es, e, sku);
    FirstSeenStays(es, e, sku);
    var own := Own(es, sku);
    var more := own + [e];
    assert more[..|own|] == own;
    assert Evidence(more, source) == Evidence(own, source) + {EvidenceRef(source, e.line)} by {
      assert forall x :: x in more <==> x in own || x == e;
    }
    assert AllFacts([]) == [];
  }

  lemma ExpectedStays(es: seq<Entry>, e: Entry, sku: string, source: string)
    requires e.parts.sku != sku
    ensures Own(es + [e], sku) == Own(es, sku)
    ensures Own(es, sku) != [] ==> Expected(es + [e], sku, source) == Expected(es, sku, source)
  {
    hide FirstSeen, Own, Facts, EvidenceRef;
    OwnGrows(es, e, sku);
    FirstSeenStays(es, e, sku);
  }

  /** A draft is stored beside the others or in the place of the one with its SKU. */
  lemma DraftIsAligned(t: Table, e: Entry, source: string)
    requires Distinct(t.rows)
    requires forall i :: 0 <= i < |t.rows| ==> t.rows[i].id < t.nextId
    ensures Aligned(t.rows, DraftFor(t, e, source))
    ensures DraftFor(t, e, source).id <= t.nextId && DraftFor(t, e, source).sku == OrNone(e.parts.sku)
  {
    hide Facts, EvidenceRef, PriceOf, DigitsOf, ProductType;
    var d, k := DraftFor(t, e, source), IndexOfSku(t.rows, e.parts.sku);
    if d.sku.Some? && k < |t.rows| {
      assert d.id == t.rows[k].id;
    } else {
      assert d.id == t.nextId;
    }
  }

  lemma DraftIsExpected(t: Table, es: seq<Entry>, e: Entry, source: string)
    requires Folded(t, es, source)
    ensures var d := DraftFor(t, e, source);
            (e.parts.sku != "" ==> Own(es + [e], e.parts.sku) != [] && d == Expected(es + [e], e.parts.sku, source))
            && (e.parts.sku == "" ==> d == FreshDraft(e, source, |es|))
  {
    hide Expected, Own, Facts, Nameless, NamelessDrafts, Evidence, Find, Merge, Distinct, PriceOf, DigitsOf, ProductType, EvidenceRef;
    var sku := e.parts.sku;
    assert FreshDraft(e, source, t.nextId).sku == OrNone(sku);
    if sku != "" {
      ExpectedGrows(es, e, sku, source);
      assert Find(t.rows, sku) == if Own(es, sku) == [] then None else Some(Expected(es, sku, source));
    }
  }

  lemma NamelessPut(rows: seq<Draft>, d: Draft)
    requires Aligned(rows, d)
    ensures Nameless(PutRow(rows, d)) == Nameless(rows) + (if d.sku.None? then [d] else [])
  {
    var k := IndexOfId(rows, d.id);
    if k < |rows| {
      assert d.sku.Some? && rows[k].sku == d.sku;
      NamelessUpdate(rows, k, d);
    } else {
      assert (rows + [d])[..|rows|] == rows;
    }
  }

  lemma IngestKeepsFolded(t: Table, es: seq<Entry>, e: Entry, source: string)
    requires Folded(t, es, source)
    ensures Folded(Ingest(t, e, source), es + [e], source)
  {
    hide Expected, Own, DraftFor, Nameless, NamelessDrafts, Find, FreshDraft;
    var d := DraftFor(t, e, source);
    var after := Ingest(t, e, source);
    DraftIsAligned(t, e, source);
    DraftIsExpected(t, es, e, source);
    PutKeepsDistinct(t.rows, d);
    NamelessPut(t.rows, d);
    NamelessGrows(es, e, source);
    forall sku | sku != ""
      ensures Find(after.rows, sku) == if Own(es + [e], sku) == [] then None else Some(Expected(es + [e], sku, source))
    {
      PutFinds(t.rows, d, sku);
      if sku != e.parts.sku {
        ExpectedStays(es, e, sku, source);
      }
    }
  }

  lemma NamelessGrows(es: seq<Entry>, e: Entry, source: string)
    ensures NamelessDrafts(es + [e], source)
            == NamelessDrafts(es, source) + (if e.parts.sku == "" then [FreshDraft(e, source, |es|)] else [])
  {
    assert (es + [e])[..|es|] == es;
  }

  /**
   From an empty store: at most one draft per SKU, and it is exactly the one its lines
   amount to; lines without a SKU make a draft each.
   */
  lemma {:induction false} FoldsToExpected(es: seq<Entry>, source: string)
    ensures Folded(IngestAll(EMPTY, es, source), es, source)
  {
    hide Expected, Ingest, Own;
    if es == [] {
      assert forall sku :: Own(es, sku) == [] by {
        forall sku
          ensures Own(es, sku) == []
        {
          OwnIffSeen(es, sku);
        }
      }
    } else {
      var init, e := es[..|es| - 1], es[|es| - 1];
      FoldsToExpected(init, source);
      IngestKeepsFolded(IngestAll(EMPTY, init, source), init, e, source);
      assert init + [e] == es;
    }
  }

  /** A SKU is marked as duplicate exactly when two accepted lines carry it. */
  lemma MarkedIffTwice(es: seq<Entry>, sku: string, source: string)
    requires sku != ""
    ensures var found := Find(IngestAll(EMPTY, es, source).rows, sku);
            (found.Some? <==> exists i :: 0 <= i < |es| && es[i].parts.sku == sku)
            && (found.Some? ==>
                 (DUPLICATE in found.value.errors
                  <==> exists i, j :: 0 <= i < j < |es| && es[i].parts.sku == sku && es[j].parts.sku == sku))
  {
    FoldsToExpected(es, source);
    OwnIffSeen(es, sku);
    OwnTwice(es, sku);
  }

  lemma {:induction false} OwnTwice(es: seq<Entry>, sku: string)
    ensures |Own(es, sku)| >= 2 <==> exists i, j :: 0 <= i < j < |es| && es[i].parts.sku == sku && es[j].parts.sku == sku
  {
    if es != [] {
      var n := |es| - 1;
      var init := es[..n];
      OwnTwice(init, sku);
      OwnIffSeen(init, sku);
      if |Own(init, sku)| >= 2 {
        var i, j :| 0 <= i < j < |init| && init[i].parts.sku == sku && init[j].parts.sku == sku;
        assert es[i].parts.sku == sku && es[j].parts.sku == sku;
      } else if |Own(es, sku)| >= 2 {
        var i :| 0 <= i < |init| && init[i].parts.sku == sku;
        assert es[i].parts.sku == sku && es[n].parts.sku == sku;
      }
      if i, j :| 0 <= i < j < |es| && es[i].parts.sku == sku && es[j].parts.sku == sku {
        assert init[i].parts.sku == sku;
        if j < n {
          assert init[j].parts.sku == sku;
        }
      }
    }
  }

  // ----- What a stored draft says ------------------------------------------------------

  /** Lower case of the letters the words above need; the Kelvin sign lowers to a plain k. */
  lemma LowerSays(s: string)
    ensures Lower("ABCDEFGHIJKLMNOPQRSTUVWXYZ") == "abcdefghijklmnopqrstuvwxyz" && Lower("\U{212A}") == "k"
    ensures |Lower(s)| == |s|
    ensures forall i :: 0 <= i < |s| && !('A' <= s[i] <= 'Z') && s[i] != '\U{212A}' ==> Lower(s)[i] == s[i]
  {
  }

  /** The kind of a product: the first of four words found in its title, in whatever case, decides. */
  lemma KindOfProduct(title: string)
    ensures var t, kind := Lower(title), ProductType(title);
            var jacket, tee := exists i :: OccursAt(t, "jacket", i), exists i :: OccursAt(t, "tee", i);
            var trouser, daypack := exists i :: OccursAt(t, "trouser", i), exists i :: OccursAt(t, "daypack", i);
            && (jacket ==> kind == "outerwear")
            && (!jacket && tee ==> kind == "tops")
            && (!jacket && !tee && trouser ==> kind == "bottoms")
            && (!jacket && !tee && !trouser && daypack ==> kind == "bags")
            && (!jacket && !tee && !trouser && !daypack ==> kind == "accessories")
  {
    hide Lower, Contains, OccursAt;
    ContainsIs(Lower(title), "jacket");
    ContainsIs(Lower(title), "tee");
    ContainsIs(Lower(title), "trouser");
    ContainsIs(Lower(title), "daypack");
  }

  /** What the ten facts of a line are about, and the texts they carry. */
  function FactNames(): (r: seq<string>)
    ensures |r| == 10
  {
    ["sku", "title", "price", "currency", "product_type", "category", "colour", "size", "material", "image"]
  }

  function FactTexts(p: Parts): (r: seq<string>)
    ensures |r| == 10
  {
    [p.sku, p.title, p.price, if exists i :: 0 <= i < |p.price| && IsDigit(p.price[i]) then "INR" else "",
     ProductType(p.title), ProductType(p.title), p.colour, p.size, p.material, p.image]
  }

  lemma {:induction false} NoDigits(s: string)
    ensures DigitsOf(s) == "" <==> !exists i :: 0 <= i < |s| && IsDigit(s[i])
  {
    if s != "" {
      NoDigits(s[1..]);
      if i :| 0 <= i < |s| && IsDigit(s[i]) {
        assert i > 0 ==> s[1..][i - 1] == s[i];
      }
      if i :| 0 <= i < |s[1..]| && IsDigit(s[1..][i]) {
        assert s[i + 1] == s[1..][i];
      }
    }
  }

  /** Each fact carries its text and line, and is trusted with eight tenths unless the text is empty. */
  lemma FactsSay(e: Entry, f: nat)
    requires f < 10
    ensures |Facts(e)| == 10
    ensures var text := FactTexts(e.parts)[f];
            Facts(e)[f] == Extracted(FactNames()[f], text, e.line, if text == "" then 0 else 8)
  {
    hide ProductType, DigitsOf;
    NoDigits(e.parts.price);
  }

  lemma {:induction false} AllFactsSay(es: seq<Entry>, j: nat, f: nat)
    requires j < |es| && f < 10
    ensures |AllFacts(es)| == 10 * |es| && AllFacts(es)[10 * j + f] == Facts(es[j])[f]
    decreases |es|
  {
    hide Facts;
    var n := |es| - 1;
    FactsSay(es[n], 0);
    FactsSay(es[j], f);
    if n > 0 {
      AllFactsSay(es[..n], if j < n then j else 0, f);
    }
  }

  /** The stored draft of a SKU, field by field, from its accepted lines. */
  lemma DraftSays(es: seq<Entry>, sku: string, source: string)
    requires sku != "" && Own(es, sku) != []
    ensures var own := Own(es, sku);
            var found, p := Find(IngestAll(EMPTY, es, source).rows, sku), own[|own| - 1].parts;
            found.Some?
            && var d := found.value;
               && d.sku == Some(sku) && d.title == (if p.title == "" then None else Some(p.title))
               && d.productType == ProductType(p.title)
               && d.colour == p.colour && d.size == p.size && d.material == p.material && d.image == p.image
               && d.currency == (if exists i :: 0 <= i < |p.price| && IsDigit(p.price[i]) then Some("INR") else None)
               && (d.price.Some? <==> d.currency.Some?)
               && d.errors == (if |own| >= 2 then {"duplicate_sku_evidence"} else {})
               && d.evidence == (set e | e in own :: source + "#page=1&line=" + Dec(e.line))
               && d.extracted == AllFacts(own)
  {
    hide Own, Facts, AllFacts, ProductType, DigitsOf, IngestAll, Find, FirstSeen, Dec;
    FoldsToExpected(es, source);
    var own := Own(es, sku);
    OwnHasSku(es, sku);
    NoDigits(own[|own| - 1].parts.price);
    PriceNeedsDigits(own[|own| - 1].parts.price);
  }

  lemma PriceNeedsDigits(s: string)
    ensures PriceOf(s).Some? <==> DigitsOf(s) != ""
  {
  }

  lemma {:induction false} OwnHasSku(es: seq<Entry>, sku: string)
    ensures forall k :: 0 <= k < |Own(es, sku)| ==> Own(es, sku)[k].parts.sku == sku && Own(es, sku)[k] in es
  {
    if es != [] {
      OwnHasSku(es[..|es| - 1], sku);
    }
  }

  /** The drafts returned: the `k`-th is what was stored for its line, from the lines up to it. */
  lemma {:induction false} SnapshotsSay(es: seq<Entry>, source: string, k: nat)
    requires k < |es|
    ensures var e, upTo, d := es[k], es[..k + 1], Snapshots(EMPTY, es, source)[k];
            && d in IngestAll(EMPTY, upTo, source).rows
            && (e.parts.sku != "" ==> Own(upTo, e.parts.sku) != [] && d == Expected(upTo, e.parts.sku, source))
            && (e.parts.sku == "" ==> d == FreshDraft(e, source, k))
    decreases |es|
  {
    hide Expected, FreshDraft, Own, DraftFor, Folded, Facts, PutRow;
    var n := |es| - 1;
    var init := es[..n];
    if k < n {
      assert init[..k + 1] == es[..k + 1];
      SnapshotsSay(init, source, k);
    } else {
      FoldsToExpected(init, source);
      DraftIsExpected(IngestAll(EMPTY, init, source), init, es[n], source);
      assert init + [es[n]] == es == es[..k + 1];
      var t := IngestAll(EMPTY, init, source);
      PutHasIt(t.rows, DraftFor(t, es[n], source));
      assert IngestAll(EMPTY, es, source) == Ingest(t, es[n], source);
    }
  }

  lemma PutHasIt(rows: seq<Draft>, d: Draft)
    ensures d in PutRow(rows, d)
  {
    var k := IndexOfId(rows, d.id);
    assert PutRow(rows, d)[k] == d;
  }
}
