/**
 A small PDF reader that follows ISO 32000-1: it starts at the end of the file, goes
 through the cross-reference table, and walks the page tree. It knows nothing of the
 writer.
 */
module PdfReader {
  import opened Common
  import opened Decimal
  import opened PdfSyntax

  // ----- The end of the file (section 7.5.5) ---------------------------------------------

  /** The last position, `at` or before, where `word` stands. */
  function FindLast(file: string, word: string, at: nat): (r: Option<nat>)
    ensures r.Some? ==> r.value + |word| <= |file|
  {
    if at + |word| <= |file| && file[at..at + |word|] == word then Some(at)
    else if at == 0 then None
    else FindLast(file, word, at - 1)
  }

  function NextInt(bs: string): Option<(nat, string)> {
    match Lex(bs)
    case Some((TInt(n), rest)) => if n >= 0 then Some((n, rest)) else None
    case _ => None
  }

  /** The offset behind the last `startxref`. */
  function StartXref(file: string): Option<nat> {
    match FindLast(file, "startxref", |file|)
    case None => None
    case Some(at) =>
      match NextInt(file[at..][9..])
      case None => None
      case Some((offset, _)) => Some(offset)
  }

  // ----- The cross-reference table (section 7.5.4) ---------------------------------------

  const ENTRY := 20

  datatype XrefEntry = XrefEntry(offset: nat, generation: nat, inUse: bool)

  /** One entry of exactly twenty bytes. */
  function ReadEntry(b: string): Option<XrefEntry> {
    if |b| == ENTRY && AllDigits(b[..10]) && b[10] == ' ' && AllDigits(b[11..16]) && b[16] == ' '
       && (b[17] == 'n' || b[17] == 'f') && b[18] == ' ' && (b[19] == '\n' || b[19] == '\r')
    then Some(XrefEntry(Value(b[..10]), Value(b[11..16]), b[17] == 'n'))
    else None
  }

  function ReadEntries(bs: string, count: nat): Option<seq<XrefEntry>> {
    if count == 0 then Some([])
    else if |bs| < ENTRY then None
    else
      match ReadEntry(bs[..ENTRY])
      case None => None
      case Some(e) =>
        match ReadEntries(bs[ENTRY..], count - 1)
        case None => None
        case Some(es) => Some([e] + es)
  }

  /** A table of one section starting at object 0, and what follows it. */
  function ReadXref(bs: string): Option<(seq<XrefEntry>, string)> {
    match Lex(bs)
    case Some((TWord("xref"), b1)) =>
      (match NextInt(b1)
       case Some((first, b2)) =>
         (match NextInt(b2)
          case Some((count, b3)) =>
            if first != 0 || b3 == "" || b3[0] != '\n' || |b3| < 1 + ENTRY * count then None
            else
              (match ReadEntries(b3[1..], count)
               case None => None
               case Some(entries) => Some((entries, b3[1..][ENTRY * count..])))
          case None => None)
       case None => None)
    case _ => None
  }

  /** The trailer dictionary. */
  function ReadTrailer(bs: string): Option<Obj> {
    match LexUntil(bs)
    case None => None
    case Some(s) =>
      if s.tokens == [] || s.tokens[0] != TWord("trailer") || s.stop != TWord("startxref") then None
      else
        match ParseObj(s.tokens[1..])
        case Some((o, rest)) => if rest == [] then Some(o) else None
        case None => None
  }

  // ----- Indirect objects (section 7.3.10) and streams (section 7.3.8) -------------------

  datatype Indirect = Indirect(value: Obj, stop: Token, rest: string)

  /** The object `num` that has to start at the front of `bs`. */
  function ReadIndirect(bs: string, num: nat): Option<Indirect> {
    match LexUntil(bs)
    case None => None
    case Some(s) =>
      if |s.tokens| < 3 || s.tokens[..3] != [TInt(num), TInt(0), TWord("obj")] then None
      else
        match ParseObj(s.tokens[3..])
        case Some((o, rest)) => if rest == [] then Some(Indirect(o, s.stop, s.rest)) else None
        case None => None
  }

  function SkipEol(bs: string): string {
    if |bs| >= 2 && bs[..2] == "\r\n" then bs[2..]
    else if bs != "" && bs[0] == '\n' then bs[1..]
    else bs
  }

  /** The data of a stream object: `/Length` bytes behind the keyword's end of line, then `endstream`. */
  function StreamData(o: Indirect): Option<string> {
    match Get(o.value, "Length")
    case Some(Int(n)) =>
      if o.stop != TWord("stream") || o.rest == "" || SkipEol(o.rest) == o.rest then None
      else
        var data := SkipEol(o.rest);
        if n < 0 || |data| < n then None
        else
          (match Lex(data[n..])
           case Some((TWord("endstream"), _)) => Some(data[..n])
           case _ => None)
    case _ => None
  }

  // ----- The page tree (section 7.7.3) ---------------------------------------------------

  /** Everything the walk needs: the file and its table. */
  datatype Source = Source(file: string, table: seq<XrefEntry>)

  function Fetch(s: Source, num: nat): Option<Indirect> {
    if num < |s.table| && s.table[num].inUse && s.table[num].offset <= |s.file|
    then ReadIndirect(s.file[s.table[num].offset..], num)
    else None
  }

  predicate HasType(o: Obj, name: string) {
    Get(o, "Type") == Some(Name(name))
  }

  function Follow(s: Source, o: Obj, key: string): Option<Indirect> {
    match Get(o, key)
    case Some(Reference(num, 0)) => Fetch(s, num)
    case _ => None
  }

  /** A page: its media box and its content stream. */
  datatype Sheet = Sheet(box: Obj, content: string)

  predicate IsFont(o: Option<Indirect>) {
    o.Some? && HasType(o.value.value, "Font")
  }

  /** All fonts of the page's resources (section 7.8.3) have to be font dictionaries. */
  predicate FontsResolve(s: Source, page: Obj) {
    match Get(page, "Resources")
    case Some(resources) =>
      (match Get(resources, "Font")
       case Some(Dict(fonts)) =>
         forall i :: 0 <= i < |fonts| ==> IsFont(Follow(s, Dict(fonts), fonts[i].key))
       case _ => false)
    case None => false
  }

  /** A leaf of the tree, which has to name `parent` as its parent. */
  function ReadSheet(s: Source, kid: Obj, parent: Obj): Option<Sheet> {
    match kid
    case Reference(num, 0) =>
      (match Fetch(s, num)
       case None => None
       case Some(page) =>
         if !HasType(page.value, "Page") || Get(page.value, "Parent") != Some(parent) || !FontsResolve(s, page.value) then None
         else
           match (Get(page.value, "MediaBox"), Follow(s, page.value, "Contents"))
           case (Some(box), Some(content)) =>
             (match StreamData(content)
              case Some(data) => Some(Sheet(box, data))
              case None => None)
           case _ => None)
    case _ => None
  }

  function Sheets(s: Source, kids: seq<Obj>, parent: Obj): Option<seq<Sheet>> {
    if kids == [] then Some([])
    else
      match ReadSheet(s, kids[0], parent)
      case None => None
      case Some(sheet) =>
        match Sheets(s, kids[1..], parent)
        case None => None
        case Some(rest) => Some([sheet] + rest)
  }

  /** All pages, in the order of `/Kids`; `/Count` has to agree. */
  function WalkPages(s: Source, trailer: Obj): Option<seq<Sheet>> {
    match Follow(s, trailer, "Root")
    case None => None
    case Some(catalog) =>
      if !HasType(catalog.value, "Catalog") then None
      else
        match Follow(s, catalog.value, "Pages")
        case None => None
        case Some(pages) =>
          if !HasType(pages.value, "Pages") then None
          else
            match (Get(pages.value, "Kids"), Get(catalog.value, "Pages"))
            case (Some(Arr(kids)), Some(self)) =>
              if Get(pages.value, "Count") == Some(Int(|kids|)) then Sheets(s, kids, self) else None
            case _ => None
  }

  function ReadPages(file: string): Option<seq<Sheet>> {
    match StartXref(file)
    case None => None
    case Some(at) =>
      if at > |file| then None
      else
        match ReadXref(file[at..])
        case None => None
        case Some((table, rest)) =>
          match ReadTrailer(rest)
          case None => None
          case Some(trailer) =>
            if Get(trailer, "Size") != Some(Int(|table|)) then None else WalkPages(Source(file, table), trailer)
  }

  // ----- Text (section 9.4) --------------------------------------------------------------

  /** A string shown with its origin at a position. */
  datatype Shown = Shown(x: int, y: int, text: string)

  /** The text state: operands so far, the start of the current line, whether a text object is open. */
  datatype TextState = TextState(operands: seq<Token>, x: int, y: int, open: bool)

  /** One operator. */
  function Operate(op: string, st: TextState): Option<(TextState, seq<Shown>)> {
    var n := |st.operands|;
    if op == "BT" then if st.open then None else Some((TextState([], 0, 0, true), []))
    else if op == "ET" then if st.open then Some((TextState([], 0, 0, false), [])) else None
    else if op == "Tf" then if n == 2 && st.operands[0].TName? && st.operands[1].TInt? then Some((st.(operands := []), [])) else None
    else if op == "Td" then
      if st.open && n == 2 && st.operands[0].TInt? && st.operands[1].TInt?
      then Some((TextState([], st.x + st.operands[0].n, st.y + st.operands[1].n, true), []))
      else None
    else if op == "Tj" then
      if st.open && n == 1 && st.operands[0].TStr? then Some((st.(operands := []), [Shown(st.x, st.y, st.operands[0].text)])) else None
    else None
  }

  predicate OnlyWhite(bs: string) {
    forall i :: 0 <= i < |bs| ==> IsWhite(bs[i])
  }

  /** The strings a content stream shows, in order. */
  function Interpret(bs: string, st: TextState): Option<seq<Shown>>
    decreases |bs|
  {
    match Lex(bs)
    case None => if OnlyWhite(bs) && st.operands == [] && !st.open then Some([]) else None
    case Some((TWord(op), rest)) =>
      (match Operate(op, st)
       case None => None
       case Some((next, shown)) =>
         match Interpret(rest, next)
         case None => None
         case Some(later) => Some(shown + later))
    case Some((t, rest)) => Interpret(rest, st.(operands := st.operands + [t]))
  }

  const START := TextState([], 0, 0, false)

  /** What a page shows, and the box it shows it in. */
  datatype Page = Page(box: Obj, shown: seq<Shown>)

  function InterpretAll(sheets: seq<Sheet>): Option<seq<Page>> {
    if sheets == [] then Some([])
    else
      match Interpret(sheets[0].content, START)
      case None => None
      case Some(shown) =>
        match InterpretAll(sheets[1..])
        case None => None
        case Some(rest) => Some([Page(sheets[0].box, shown)] + rest)
  }

  /** The shown strings of every page of a file. */
  function ReadText(file: string): Option<seq<Page>> {
    match ReadPages(file)
    case None => None
    case Some(sheets) => InterpretAll(sheets)
  }
}
