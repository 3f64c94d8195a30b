/** The content streams the writer makes, as the reader interprets them. */
module PdfContent {
  import opened Common
  import opened Utf8
  import opened Decimal
  import opened PdfWriter
  import opened PdfSyntax
  import opened PdfReader
  import opened PdfLexing
  import opened PdfStrings

  // ----- The stream, front to back -----------------------------------------------------

  /** Every part followed by a line feed. */
  function Terminated(parts: seq<string>): string {
    if parts == [] then "" else Terminated(parts[..|parts| - 1]) + parts[|parts| - 1] + "\n"
  }

  lemma {:induction false} JoinTerminated(parts: seq<string>, last: string)
    ensures Join("\n", parts + [last]) == Terminated(parts) + last
  {
    var all := parts + [last];
    assert all[..|all| - 1] == parts;
    if parts == [] {
      assert "" + last == last;
    } else {
      assert parts == parts[..|parts| - 1] + [parts[|parts| - 1]];
      JoinTerminated(parts[..|parts| - 1], parts[|parts| - 1]);
    }
  }

  lemma {:induction false} TerminatedAppend(a: seq<string>, b: seq<string>)
    ensures Terminated(a + b) == Terminated(a) + Terminated(b)
  {
    if b == [] {
      assert a + b == a;
      assert Terminated(a) + "" == Terminated(a);
    } else {
      var c := a + b;
      assert c[..|c| - 1] == a + b[..|b| - 1];
      TerminatedAppend(a, b[..|b| - 1]);
    }
  }

  /** One line of a page: the move down, unless it is the first, and the string. */
  function Block(line: string, first: bool): string {
    (if first then "" else "0 -26 Td\n") + "(" + Escape(line) + ") Tj\n"
  }

  function Blocks(pageLines: seq<string>, first: bool): string {
    if pageLines == [] then "" else Block(pageLines[0], first) + Blocks(pageLines[1..], false)
  }

  lemma {:induction false} BlocksAppend(ls: seq<string>, line: string, first: bool)
    ensures Blocks(ls + [line], first) == Blocks(ls, first) + Block(line, first && ls == [])
  {
    hide Block;
    if ls == [] {
      assert ls + [line] == [line] && [line][1..] == [];
      assert Blocks([line], first) == Block(line, first) + "";
    } else {
      assert (ls + [line])[1..] == ls[1..] + [line];
      BlocksAppend(ls[1..], line, false);
    }
  }

  lemma BlockIsTerminated(line: string, first: bool)
    ensures Terminated((if first then [] else ["0 -26 Td"]) + [ShowLine(line)]) == Block(line, first)
  {
    hide Escape;
    var move := if first then [] else ["0 -26 Td"];
    TerminatedAppend(move, [ShowLine(line)]);
    TerminatedOne(ShowLine(line));
    assert ShowLine(line) + "\n" == "(" + Escape(line) + ") Tj\n";
    if first {
      assert "" + (ShowLine(line) + "\n") == ShowLine(line) + "\n";
    } else {
      TerminatedOne("0 -26 Td");
      assert "0 -26 Td" + "\n" == "0 -26 Td\n";
    }
  }

  lemma {:induction false} ShowsAreBlocks(ls: seq<string>)
    ensures Terminated(Shows(ls)) == Blocks(ls, true)
  {
    hide Block, ShowLine;
    if ls != [] {
      var init, last := ls[..|ls| - 1], ls[|ls| - 1];
      ShowsAreBlocks(init);
      BlocksAppend(init, last, true);
      assert ls == init + [last];
      var own := (if |ls| > 1 then ["0 -26 Td"] else []) + [ShowLine(last)];
      assert Shows(ls) == Shows(init) + own;
      TerminatedAppend(Shows(init), own);
      BlockIsTerminated(last, |ls| == 1);
    }
  }

  lemma TerminatedOne(part: string)
    ensures Terminated([part]) == part + "\n"
  {
    assert [part][..0] == [];
    assert Terminated([part]) == "" + part + "\n";
  }

  const OPENING := "BT\n/F1 10 Tf\n50 790 Td\n"

  lemma StreamIsBlocks(pageLines: seq<string>)
    ensures Stream(pageLines) == OPENING + Blocks(pageLines, true) + "ET"
  {
    hide Terminated, Shows, Blocks, Join;
    var opening := ["BT", "/F1 10 Tf", "50 790 Td"];
    JoinTerminated(opening + Shows(pageLines), "ET");
    TerminatedAppend(opening, Shows(pageLines));
    ShowsAreBlocks(pageLines);
    OpeningIsTerminated();
  }

  lemma OpeningIsTerminated()
    ensures Terminated(["BT", "/F1 10 Tf", "50 790 Td"]) == OPENING
  {
    hide Terminated;
    var opening := ["BT", "/F1 10 Tf", "50 790 Td"];
    TerminatedAppend(["BT", "/F1 10 Tf"], ["50 790 Td"]);
    TerminatedAppend(["BT"], ["/F1 10 Tf"]);
    TerminatedOne("BT");
    TerminatedOne("/F1 10 Tf");
    TerminatedOne("50 790 Td");
    assert ["BT"] + ["/F1 10 Tf"] == ["BT", "/F1 10 Tf"] && ["BT", "/F1 10 Tf"] + ["50 790 Td"] == opening;
    assert "BT" + "\n" + ("/F1 10 Tf" + "\n") + ("50 790 Td" + "\n") == OPENING;
  }

  // ----- Interpreting ------------------------------------------------------------------

  lemma Numerals()
    ensures WordToken("0") == TInt(0) && WordToken("10") == TInt(10) && WordToken("50") == TInt(50)
    ensures WordToken("790") == TInt(790) && WordToken("-26") == TInt(-26)
  {
    hide WordToken;
    SpellsNumber(0);
    SpellsNumber(10);
    SpellsNumber(50);
    SpellsNumber(790);
    assert Dec(0) == "0" && Dec(10) == "10" && Dec(50) == "50" && Dec(79) == "79";
    assert Dec(790) == "790";
    SpellsNegative(26);
    assert Dec(26) == "26" && "-" + "26" == "-26";
  }

  lemma SpellsNegative(n: nat)
    ensures WordToken("-" + Dec(n)) == TInt(0 - n)
  {
    var w := "-" + Dec(n);
    assert w[0] == '-' && !IsDigit(w[0]) && w[1..] == Dec(n);
    ValueDec(n);
  }

  lemma InterpretSpace(gap: char, after: string, st: TextState)
    requires IsWhite(gap)
    ensures Interpret([gap] + after, st) == Interpret(after, st)
  {
    hide Lex;
    LexSpace(gap, after);
    assert OnlyWhite([gap] + after) <==> OnlyWhite(after) by {
      assert forall i :: 0 <= i < |after| ==> ([gap] + after)[i + 1] == after[i];
    }
  }

  lemma Operand(text: string, t: Token, gap: char, after: string, st: TextState)
    requires Spells(text, t) && !t.TWord? && IsWhite(gap)
    ensures Interpret(text + [gap] + after, st) == Interpret(after, st.(operands := st.operands + [t]))
  {
    hide Lex;
    assert text + [gap] + after == text + ([gap] + after);
    LexToken(text, t, [gap] + after);
    InterpretSpace(gap, after, st.(operands := st.operands + [t]));
  }

  function Later(shown: seq<Shown>, r: Option<seq<Shown>>): Option<seq<Shown>> {
    match r
    case None => None
    case Some(s) => Some(shown + s)
  }

  lemma Operator(op: string, gap: string, after: string, st: TextState, next: TextState, shown: seq<Shown>)
    requires RegularWord(op) && WordToken(op) == TWord(op)
    requires gap == "\n" || (gap == "" && after == "")
    requires Operate(op, st) == Some((next, shown))
    ensures Interpret(op + gap + after, st) == Later(shown, Interpret(after, next))
  {
    hide Lex, Operate;
    assert op + gap + after == op + (gap + after);
    LexWord(op, gap + after);
    if gap == "" {
      assert gap + after == after;
    } else {
      InterpretSpace('\n', after, next);
    }
  }

  lemma Words()
    ensures forall op :: op in {"BT", "ET", "Tf", "Td", "Tj"} ==> RegularWord(op) && WordToken(op) == TWord(op)
  {
    forall op | op in {"BT", "ET", "Tf", "Td", "Tj"}
      ensures RegularWord(op) && WordToken(op) == TWord(op)
    {
      assert |op| == 2 && IsRegular(op[0]) && IsRegular(op[1]);
      assert !IsDigit(op[0]) && op[0] != '-' && op[0] != '+';
    }
  }

  const NEXT_LINE := "0 -26 Td\n"

  lemma MoveOperator(sx: string, x: int, sy: string, y: int, after: string, st: TextState)
    requires st.open && st.operands == []
    requires Spells(sx, TInt(x)) && Spells(sy, TInt(y))
    ensures Interpret(sx + " " + sy + " Td\n" + after, st) == Interpret(after, st.(x := st.x + x, y := st.y + y))
  {
    hide Lex, Interpret, WordToken, Spells;
    Words();
    var rest2 := "Td" + "\n" + after;
    var rest := sy + [' '] + rest2;
    assert sx + " " + sy + " Td\n" + after == sx + [' '] + rest;
    Operand(sx, TInt(x), ' ', rest, st);
    var st1 := st.(operands := [TInt(x)]);
    assert st.(operands := st.operands + [TInt(x)]) == st1;
    Operand(sy, TInt(y), ' ', rest2, st1);
    var st2 := st.(operands := [TInt(x), TInt(y)]);
    assert st1.(operands := st1.operands + [TInt(y)]) == st2;
    var next := st.(x := st.x + x, y := st.y + y);
    assert next.operands == [];
    Operator("Td", "\n", after, st2, next, []);
    Nothing(Interpret(after, next));
  }

  /** The move to the next line. */
  lemma InterpretMove(after: string, st: TextState)
    requires st.open && st.operands == []
    ensures Interpret(NEXT_LINE + after, st) == Interpret(after, st.(y := st.y - 26))
  {
    hide Interpret, WordToken;
    Numerals();
    MoveOperator("0", 0, "-26", -26, after, st);
    assert NEXT_LINE == "0" + " " + "-26" + " Td\n";
  }

  lemma Nothing(r: Option<seq<Shown>>)
    ensures Later([], r) == r
  {
    if r.Some? {
      assert [] + r.value == r.value;
    }
  }

  /** One shown line. */
  lemma InterpretShow(line: string, after: string, st: TextState)
    requires st.open && st.operands == []
    ensures Interpret("(" + Escaped(line) + ") Tj\n" + after, st)
            == Later([Shown(st.x, st.y, Normalized(Encode(line)))], Interpret(after, st))
  {
    hide WordToken, ReadLiteral, Encode, Escaped, Normalized;
    Words();
    var rest := "Tj" + "\n" + after;
    var bs := "(" + Escaped(line) + ") Tj\n" + after;
    assert bs[1..] == Escaped(line) + ")" + ([' '] + rest);
    EscapedReadsBack(line, [' '] + rest);
    var text := Normalized(Encode(line));
    assert Lex(bs) == Some((TStr(text), [' '] + rest));
    var st1 := st.(operands := [TStr(text)]);
    assert st.(operands := st.operands + [TStr(text)]) == st1;
    assert Interpret(bs, st) == Interpret([' '] + rest, st1);
    InterpretSpace(' ', rest, st1);
    assert st1.(operands := []) == st;
    Operator("Tj", "\n", after, st1, st, [Shown(st.x, st.y, text)]);
  }

  /** The strings of a page: one under the other, 26 units apart. */
  function PageText(ls: seq<string>, x: int, y: int): (r: seq<Shown>)
    ensures |r| == |ls|
    ensures forall i :: 0 <= i < |ls| ==> r[i] == Shown(x, y - 26 * i, Normalized(Encode(ls[i])))
  {
    seq(|ls|, i requires 0 <= i < |ls| => Shown(x, y - 26 * i, Normalized(Encode(ls[i]))))
  }

  lemma PageTextCons(ls: seq<string>, x: int, y: int)
    requires ls != []
    ensures PageText(ls, x, y) == [Shown(x, y, Normalized(Encode(ls[0])))] + PageText(ls[1..], x, y - 26)
  {
    hide Encode, Normalized;
    var a, b := PageText(ls, x, y), [Shown(x, y, Normalized(Encode(ls[0])))] + PageText(ls[1..], x, y - 26);
    assert forall i :: 0 < i < |ls| ==> b[i] == PageText(ls[1..], x, y - 26)[i - 1];
    assert a == b;
  }

  lemma EncodeBlock(line: string, first: bool)
    ensures Encode(Block(line, first)) == (if first then "" else NEXT_LINE) + ("(" + Escaped(line) + ") Tj\n")
  {
    hide Encode, Escape, EscapeEach;
    EscapeIsPerCharacter(line);
    var move := if first then "" else NEXT_LINE;
    EncodeAscii(move);
    EncodeAscii("(");
    EncodeAscii(") Tj\n");
    EncodeAppend("(", Escape(line));
    EncodeAppend("(" + Escape(line), ") Tj\n");
    var show := "(" + Escape(line) + ") Tj\n";
    EncodeAppend(move, show);
    assert Block(line, first) == move + show;
  }

  lemma InterpretBlock(line: string, first: bool, after: string, st: TextState)
    requires st.open && st.operands == []
    ensures var y := if first then st.y else st.y - 26;
            Interpret(Encode(Block(line, first)) + after, st)
            == Later([Shown(st.x, y, Normalized(Encode(line)))], Interpret(after, st.(y := y)))
  {
    hide Interpret, Encode, Escaped, Normalized, Block;
    EncodeBlock(line, first);
    var show := "(" + Escaped(line) + ") Tj\n";
    if first {
      assert "" + show == show;
      InterpretShow(line, after, st);
    } else {
      assert NEXT_LINE + show + after == NEXT_LINE + (show + after);
      InterpretMove(show + after, st);
      InterpretShow(line, after, st.(y := st.y - 26));
    }
  }

  lemma InterpretEnd(st: TextState)
    requires st.open && st.operands == []
    ensures Interpret("ET", st) == Some([])
  {
    hide WordToken;
    Words();
    assert "ET" + "" + "" == "ET";
    var done := TextState([], 0, 0, false);
    Operator("ET", "", "", st, done, []);
    assert Interpret("", done) == Some([]);
    Nothing(Some([]));
  }

  lemma {:induction false} InterpretBlocks(ls: seq<string>, first: bool, st: TextState)
    requires st.open && st.operands == []
    ensures Interpret(Encode(Blocks(ls, first)) + "ET", st)
            == Some(PageText(ls, st.x, if first then st.y else st.y - 26))
  {
    hide Interpret, Encode, Block, Normalized, PageText;
    var y := if first then st.y else st.y - 26;
    if ls == [] {
      EncodeAscii("");
      assert "" + "ET" == "ET";
      InterpretEnd(st);
      assert PageText(ls, st.x, y) == [];
    } else {
      var tail := Encode(Blocks(ls[1..], false));
      EncodeAppend(Block(ls[0], first), Blocks(ls[1..], false));
      assert Encode(Blocks(ls, first)) + "ET" == Encode(Block(ls[0], first)) + (tail + "ET");
      InterpretBlock(ls[0], first, tail + "ET", st);
      InterpretBlocks(ls[1..], false, st.(y := y));
      PageTextCons(ls, st.x, y);
    }
  }

  lemma InterpretBegin(after: string)
    ensures Interpret("BT\n" + after, START) == Interpret(after, TextState([], 0, 0, true))
  {
    hide Interpret, WordToken;
    Words();
    assert "BT\n" + after == "BT" + "\n" + after;
    var st := TextState([], 0, 0, true);
    Operator("BT", "\n", after, START, st, []);
    Nothing(Interpret(after, st));
  }

  lemma InterpretOpening(after: string)
    ensures Interpret(OPENING + after, START) == Interpret(after, TextState([], 50, 790, true))
  {
    hide Interpret, WordToken;
    var st := TextState([], 0, 0, true);
    var r2 := "50 790 Td\n" + after;
    var r1 := "/F1 10 Tf\n" + r2;
    assert OPENING + after == "BT\n" + r1 by {
      assert OPENING == "BT\n" + "/F1 10 Tf\n" + "50 790 Td\n";
    }
    InterpretBegin(r1);
    FontOperator(r2, st);
    FirstMove(after, st);
  }

  lemma FontOperator(after: string, st: TextState)
    requires st.operands == []
    ensures Interpret("/F1 10 Tf\n" + after, st) == Interpret(after, st)
  {
    hide Interpret, WordToken;
    Numerals();
    Words();
    var r1 := "10 Tf\n" + after;
    assert "/F1 10 Tf\n" + after == "/F1" + [' '] + r1;
    assert "/F1" == "/" + "F1";
    Operand("/F1", TName("F1"), ' ', r1, st);
    var r2 := "Tf" + "\n" + after;
    assert r1 == "10" + [' '] + r2;
    var st1 := st.(operands := [TName("F1")]);
    assert st.(operands := st.operands + [TName("F1")]) == st1;
    Operand("10", TInt(10), ' ', r2, st1);
    var st2 := st.(operands := [TName("F1"), TInt(10)]);
    assert st1.(operands := st1.operands + [TInt(10)]) == st2;
    assert st2.(operands := []) == st;
    Operator("Tf", "\n", after, st2, st, []);
    Nothing(Interpret(after, st));
  }

  lemma FirstMove(after: string, st: TextState)
    requires st == TextState([], 0, 0, true)
    ensures Interpret("50 790 Td\n" + after, st) == Interpret(after, TextState([], 50, 790, true))
  {
    hide Interpret, WordToken;
    Numerals();
    MoveOperator("50", 50, "790", 790, after, st);
    assert "50 790 Td\n" == "50" + " " + "790" + " Td\n";
  }

  /** The reader shows every line of a page, from (50, 790) down, and nothing else. */
  lemma StreamShowsLines(ls: seq<string>)
    ensures Interpret(Encode(Stream(ls)), START) == Some(PageText(ls, 50, 790))
  {
    hide Interpret, Encode, Blocks, Stream, PageText;
    StreamIsBlocks(ls);
    EncodeAppend(OPENING, Blocks(ls, true));
    EncodeAppend(OPENING + Blocks(ls, true), "ET");
    EncodeAscii(OPENING);
    EncodeAscii("ET");
    var rest := Encode(Blocks(ls, true)) + "ET";
    assert Encode(Stream(ls)) == OPENING + rest;
    InterpretOpening(rest);
    InterpretBlocks(ls, true, TextState([], 50, 790, true));
  }
}
