/** `boardToFen` (utils/gameLogic.ts): the FEN-style text of a position.
    Each row lists its cells from column 0 to 8, a run of empty cells as
    one digit, a piece as a letter (upper case for Red, lower case for
    Black); rows are joined by '/' from row 0 to row 9, and the side to
    move follows. A decoder is given as the encoder's partner: it recovers
    the kind and colour of every cell. */
module Fen {
  import opened Types
  import opened Decimal

  function LowerLetter(k: PieceType): char {
    match k
    case General => 'k'
    case Advisor => 'a'
    case Elephant => 'b'
    case Horse => 'n'
    case Chariot => 'r'
    case Cannon => 'c'
    case Soldier => 'p'
  }

  function ToUpper(ch: char): char
    requires 'a' <= ch <= 'z'
  {
    (ch as int - 32) as char
  }

  function PieceChar(p: Piece): char {
    if p.color == Red then ToUpper(LowerLetter(p.kind)) else LowerLetter(p.kind)
  }

  /** The digit for a run of `e` empty cells, if any. */
  function Run(e: nat): string
    requires e < 10
  {
    if e > 0 then [DigitChar(e)] else []
  }

  /** The text of a row's remaining cells, with `e` empty cells pending. */
  function RowText(cells: seq<Cell>, e: nat): string
    requires e + |cells| < 10
    decreases |cells|
  {
    if cells == [] then Run(e)
    else if cells[0].None? then RowText(cells[1..], e + 1)
    else Run(e) + [PieceChar(cells[0].value)] + RowText(cells[1..], 0)
  }

  predicate RowsOfWidth(rows: seq<seq<Cell>>) {
    forall i | 0 <= i < |rows| :: |rows[i]| == COLS
  }

  /** The texts of the rows joined by '/'. */
  function BoardText(rows: seq<seq<Cell>>): string
    requires RowsOfWidth(rows)
    decreases |rows|
  {
    if rows == [] then ""
    else if |rows| == 1 then RowText(rows[0], 0)
    else BoardText(rows[..|rows| - 1]) + "/" + RowText(rows[|rows| - 1], 0)
  }

  function TurnChar(turn: Color): char {
    if turn == Red then 'w' else 'b'
  }

  /** `boardToFen` as a function of the position and the side to move. */
  function BoardToFen(g: Grid, turn: Color): string {
    BoardText(g) + " " + [TurnChar(turn)] + " - - 0 1"
  }

  // ---------------------------------------------------------------------
  // The loop on the mutable board
  // ---------------------------------------------------------------------

  /** What the outer loop has produced before row r. */
  function RowsDone(g: Grid, r: int): string
    requires 0 <= r <= ROWS
  {
    if r == 0 then "" else if r == ROWS then BoardText(g) else BoardText(g[..r]) + "/"
  }

  /** The inner loop of `boardToFen`: the text of row r, with runs of empty
      cells counted in `emptyCount`. */
  method RowToFenOn(board: array2<Cell>, r: int) returns (text: string)
    requires IsBoard(board) && 0 <= r < ROWS
    ensures text == RowText(Snapshot(board)[r], 0)
  {
    ghost var row := Snapshot(board)[r];
    text := "";
    var emptyCount := 0;
    var c := 0;
    while c < 9
      invariant 0 <= c <= COLS && 0 <= emptyCount <= c
      invariant text + RowText(row[c..], emptyCount) == RowText(row, 0)
    {
      var p := board[r, c];
      ghost var before, e0 := text, emptyCount;
      RowTextStep(row, c, emptyCount);
      if p.None? {
        emptyCount := emptyCount + 1;
      } else {
        if emptyCount > 0 {
          text := text + [DigitChar(emptyCount)];
          emptyCount := 0;
        }
        assert text == before + Run(e0);
        text := text + [PieceChar(p.value)];
        Regroup(before, Run(e0) + [PieceChar(p.value)], RowText(row[c + 1..], 0));
        Regroup(before, Run(e0), [PieceChar(p.value)]);
      }
      c := c + 1;
    }
    assert row[c..] == [];
    if emptyCount > 0 {
      text := text + [DigitChar(emptyCount)];
    }
  }

  /** `boardToFen` on the engine's board. */
  method BoardToFenOn(board: array2<Cell>, turn: Color) returns (fen: string)
    requires IsBoard(board)
    ensures fen == BoardToFen(Snapshot(board), turn)
  {
    ghost var g := Snapshot(board);
    fen := "";
    var r := 0;
    while r < 10
      invariant 0 <= r <= ROWS
      invariant fen == RowsDone(g, r)
    {
      var text := RowToFenOn(board, r);
      fen := fen + text;
      if r < 9 {
        fen := fen + "/";
      }
      RowsDoneStep(g, r);
      r := r + 1;
    }
    assert g[..ROWS] == g;
    fen := fen + " " + [TurnChar(turn)] + " - - 0 1";
  }

  lemma RowTextStep(row: seq<Cell>, c: int, e: nat)
    requires 0 <= c < |row| && e + |row| - c < 10
    ensures row[c..][1..] == row[c + 1..]
    ensures row[c].None? ==> RowText(row[c..], e) == RowText(row[c + 1..], e + 1)
    ensures row[c].Some? ==> RowText(row[c..], e) == Run(e) + [PieceChar(row[c].value)] + RowText(row[c + 1..], 0)
  {
    assert row[c..][1..] == row[c + 1..];
  }

  lemma RowsDoneStep(g: Grid, r: int)
    requires 0 <= r < ROWS
    ensures RowsDone(g, r + 1) == RowsDone(g, r) + RowText(g[r], 0) + (if r < ROWS - 1 then "/" else "")
  {
    var rows := g[..r + 1];
    assert rows[..r] == g[..r];
    assert rows[r] == g[r];
    if r + 1 == ROWS {
      assert rows == g;
    }
  }

  // ---------------------------------------------------------------------
  // Decoding
  // ---------------------------------------------------------------------

  /** What a cell shows in FEN: the kind and colour of its piece. */
  datatype Glyph = Glyph(kind: PieceType, color: Color)

  function GlyphOf(cell: Cell): Option<Glyph> {
    if cell.None? then None else Some(Glyph(cell.value.kind, cell.value.color))
  }

  function Glyphs(row: seq<Cell>): seq<Option<Glyph>>
    decreases |row|
  {
    if row == [] then [] else [GlyphOf(row[0])] + Glyphs(row[1..])
  }

  lemma {:induction false} GlyphsLength(row: seq<Cell>)
    ensures |Glyphs(row)| == |row|
    decreases |row|
  {
    if row != [] {
      GlyphsLength(row[1..]);
    }
  }

  function Blanks(n: nat): seq<Option<Glyph>>
    decreases n
  {
    if n == 0 then [] else [None] + Blanks(n - 1)
  }

  function LetterKind(ch: char): Option<PieceType> {
    if ch == 'k' then Some(General)
    else if ch == 'a' then Some(Advisor)
    else if ch == 'b' then Some(Elephant)
    else if ch == 'n' then Some(Horse)
    else if ch == 'r' then Some(Chariot)
    else if ch == 'c' then Some(Cannon)
    else if ch == 'p' then Some(Soldier)
    else None
  }

  /** The cells one FEN character stands for; unknown characters stand for none. */
  function DecodeChar(ch: char): seq<Option<Glyph>> {
    if '1' <= ch <= '9' then Blanks(ch as int - '0' as int)
    else if LetterKind(ch).Some? then [Some(Glyph(LetterKind(ch).value, Black))]
    else if 'A' <= ch <= 'Z' && LetterKind((ch as int + 32) as char).Some? then
      [Some(Glyph(LetterKind((ch as int + 32) as char).value, Red))]
    else []
  }

  function Decode(s: string): seq<Option<Glyph>>
    decreases |s|
  {
    if s == [] then [] else DecodeChar(s[0]) + Decode(s[1..])
  }

  /** The text split at every '/'. */
  function SplitRows(s: string): (parts: seq<string>)
    ensures |parts| >= 1
    decreases |s|
  {
    if s == [] then [[]]
    else
      var rest := SplitRows(s[1..]);
      if s[0] == '/' then [[]] + rest else [[s[0]] + rest[0]] + rest[1..]
  }

  /** The kind and colour of every cell of a FEN board text. */
  function DecodeBoard(s: string): seq<seq<Option<Glyph>>> {
    var parts := SplitRows(s);
    seq(|parts|, i requires 0 <= i < |parts| => Decode(parts[i]))
  }

  function GridGlyphs(g: Grid): seq<seq<Option<Glyph>>> {
    seq(ROWS, r requires 0 <= r < ROWS => Glyphs(g[r]))
  }

  // ---------------------------------------------------------------------
  // Round trip
  // ---------------------------------------------------------------------

  lemma {:induction false} DecodeAppend(s: string, t: string)
    ensures Decode(s + t) == Decode(s) + Decode(t)
    decreases |s|
  {
    if s == [] {
      assert s + t == t;
    } else {
      assert (s + t)[0] == s[0];
      assert (s + t)[1..] == s[1..] + t;
      DecodeAppend(s[1..], t);
      calc {
        Decode(s + t);
        DecodeChar(s[0]) + Decode(s[1..] + t);
        DecodeChar(s[0]) + (Decode(s[1..]) + Decode(t));
        (DecodeChar(s[0]) + Decode(s[1..])) + Decode(t);
      }
    }
  }

  lemma PieceCharDecodes(p: Piece)
    ensures Decode([PieceChar(p)]) == [GlyphOf(Some(p))]
    ensures PieceChar(p) != '/' && PieceChar(p) != ' '
  {
    assert [PieceChar(p)][1..] == [];
  }

  lemma RunDecodes(e: nat)
    requires e < 10
    ensures Decode(Run(e)) == Blanks(e)
    ensures '/' !in Run(e) && ' ' !in Run(e)
  {
    if e > 0 {
      assert DigitChar(e) as int - '0' as int == e;
      assert [DigitChar(e)][1..] == [];
    }
  }

  lemma {:induction false} BlanksAppend(e: nat)
    ensures Blanks(e) + [None] == Blanks(e + 1)
    decreases e
  {
    if e > 0 {
      BlanksAppend(e - 1);
    }
  }

  predicate IsDigit(ch: char) {
    '0' <= ch <= '9'
  }

  /** No two digits stand next to each other. */
  predicate DigitsApart(s: string) {
    forall i | 0 <= i < |s| - 1 :: !(IsDigit(s[i]) && IsDigit(s[i + 1]))
  }

  /** A piece letter is not a digit. */
  lemma PieceCharLetter(p: Piece)
    ensures !IsDigit(PieceChar(p))
    ensures p.color == Red ==> 'A' <= PieceChar(p) <= 'Z'
    ensures p.color == Black ==> 'a' <= PieceChar(p) <= 'z'
  {
  }

  lemma JoinDigitsApart(a: string, ch: char, t: string)
    requires |a| <= 1 && !IsDigit(ch) && DigitsApart(t)
    ensures DigitsApart(a + [ch] + t)
  {
    var s := a + [ch] + t;
    forall i | 0 <= i < |s| - 1
      ensures !(IsDigit(s[i]) && IsDigit(s[i + 1]))
    {
      if i + 1 > |a| + 1 {
        assert s[i] == t[i - |a| - 1] && s[i + 1] == t[i - |a|];
      }
    }
  }

  /** Each run of empty cells is written as one digit: a row's text never
      holds two digits in a row. */
  lemma {:induction false} RowTextDigitsApart(cells: seq<Cell>, e: nat)
    requires e + |cells| < 10
    ensures DigitsApart(RowText(cells, e))
    decreases |cells|
  {
    if cells != [] {
      if cells[0].None? {
        RowTextDigitsApart(cells[1..], e + 1);
      } else {
        RowTextDigitsApart(cells[1..], 0);
        PieceCharLetter(cells[0].value);
        JoinDigitsApart(Run(e), PieceChar(cells[0].value), RowText(cells[1..], 0));
      }
    }
  }

  /** A row's text holds no '/' and no space. */
  lemma {:induction false} RowTextNoSeparators(cells: seq<Cell>, e: nat)
    requires e + |cells| < 10
    ensures '/' !in RowText(cells, e) && ' ' !in RowText(cells, e)
    decreases |cells|
  {
    RunDecodes(e);
    if cells != [] {
      if cells[0].None? {
        RowTextNoSeparators(cells[1..], e + 1);
      } else {
        RowTextNoSeparators(cells[1..], 0);
        PieceCharDecodes(cells[0].value);
      }
    }
  }

  /** The step of RowTextDecodes past an empty cell. */
  lemma RowTextDecodesBlank(cells: seq<Cell>, e: nat)
    requires e + |cells| < 10 && cells != [] && cells[0].None?
    requires Decode(RowText(cells[1..], e + 1)) == Blanks(e + 1) + Glyphs(cells[1..])
    ensures Decode(RowText(cells, e)) == Blanks(e) + Glyphs(cells)
  {
    BlanksAppend(e);
    assert Blanks(e + 1) + Glyphs(cells[1..]) == Blanks(e) + ([None] + Glyphs(cells[1..]));
  }

  /** The step of RowTextDecodes past a piece. */
  lemma RowTextDecodesPiece(cells: seq<Cell>, e: nat)
    requires e + |cells| < 10 && cells != [] && cells[0].Some?
    requires Decode(RowText(cells[1..], 0)) == Glyphs(cells[1..])
    ensures Decode(RowText(cells, e)) == Blanks(e) + Glyphs(cells)
  {
    var run, pc, rest := Run(e), [PieceChar(cells[0].value)], RowText(cells[1..], 0);
    var g0 := GlyphOf(cells[0]);
    assert RowText(cells, e) == run + pc + rest;
    RunDecodes(e);
    PieceCharDecodes(cells[0].value);
    DecodeAppend(run + pc, rest);
    DecodeAppend(run, pc);
    assert Glyphs(cells) == [g0] + Glyphs(cells[1..]);
    calc {
      Decode(RowText(cells, e));
      Decode(run + pc) + Decode(rest);
      (Blanks(e) + [g0]) + Glyphs(cells[1..]);
      { Regroup(Blanks(e), [g0], Glyphs(cells[1..])); }
      Blanks(e) + ([g0] + Glyphs(cells[1..]));
    }
  }

  /** A row's text decodes to the row's glyphs. */
  lemma {:induction false} RowTextDecodes(cells: seq<Cell>, e: nat)
    requires e + |cells| < 10
    ensures Decode(RowText(cells, e)) == Blanks(e) + Glyphs(cells)
    decreases |cells|
  {
    if cells == [] {
      RunDecodes(e);
    } else if cells[0].None? {
      RowTextDecodes(cells[1..], e + 1);
      RowTextDecodesBlank(cells, e);
    } else {
      RowTextDecodes(cells[1..], 0);
      RowTextDecodesPiece(cells, e);
    }
  }

  lemma {:induction false} SplitNoSlash(a: string)
    requires '/' !in a
    ensures SplitRows(a) == [a]
    decreases |a|
  {
    if a != [] {
      SplitNoSlash(a[1..]);
      assert [a[0]] + a[1..] == a;
    }
  }

  lemma {:induction false} SplitLastSlash(a: string, b: string)
    requires '/' !in b
    ensures SplitRows(a + "/" + b) == SplitRows(a) + [b]
    decreases |a|
  {
    if a == [] {
      assert a + "/" + b == "/" + b;
      assert ("/" + b)[1..] == b;
      SplitNoSlash(b);
    } else {
      assert (a + "/" + b)[0] == a[0];
      assert (a + "/" + b)[1..] == a[1..] + "/" + b;
      SplitLastSlash(a[1..], b);
    }
  }

  /** The texts of the rows, one per row, in order. */
  function RowTexts(rows: seq<seq<Cell>>): (texts: seq<string>)
    requires RowsOfWidth(rows)
    ensures |texts| == |rows|
    decreases |rows|
  {
    if rows == [] then [] else RowTexts(rows[..|rows| - 1]) + [RowText(rows[|rows| - 1], 0)]
  }

  lemma {:induction false} RowTextsAt(rows: seq<seq<Cell>>, i: int)
    requires RowsOfWidth(rows) && 0 <= i < |rows|
    ensures RowTexts(rows)[i] == RowText(rows[i], 0)
    decreases |rows|
  {
    var n := |rows| - 1;
    if i < n {
      RowTextsAt(rows[..n], i);
      assert rows[..n][i] == rows[i];
    }
  }

  /** Split at '/', the text of n >= 1 rows gives back the n row texts. */
  lemma {:induction false} BoardTextIsRowTexts(rows: seq<seq<Cell>>)
    requires RowsOfWidth(rows) && rows != []
    ensures SplitRows(BoardText(rows)) == RowTexts(rows)
    ensures ' ' !in BoardText(rows)
    decreases |rows|
  {
    var n := |rows| - 1;
    RowTextNoSeparators(rows[n], 0);
    if n == 0 {
      SplitNoSlash(RowText(rows[0], 0));
      assert rows[..0] == [];
    } else {
      BoardTextIsRowTexts(rows[..n]);
      SplitLastSlash(BoardText(rows[..n]), RowText(rows[n], 0));
    }
  }

  /** The same, read row by row. */
  lemma BoardTextSplits(rows: seq<seq<Cell>>)
    requires RowsOfWidth(rows) && rows != []
    ensures |SplitRows(BoardText(rows))| == |rows|
    ensures forall i | 0 <= i < |rows| :: SplitRows(BoardText(rows))[i] == RowText(rows[i], 0)
    ensures ' ' !in BoardText(rows)
  {
    BoardTextIsRowTexts(rows);
    forall i | 0 <= i < |rows| ensures SplitRows(BoardText(rows))[i] == RowText(rows[i], 0) {
      RowTextsAt(rows, i);
    }
  }

  /** The board part of the FEN text, split at '/', decodes to the kind and
      colour of every cell of every row: the text determines them all. */
  lemma FenBoardRoundTrip(g: Grid)
    ensures DecodeBoard(BoardText(g)) == GridGlyphs(g)
  {
    BoardTextSplits(g);
    forall r | 0 <= r < ROWS ensures Decode(RowText(g[r], 0)) == Glyphs(g[r]) {
      RowTextDecodes(g[r], 0);
    }
  }

  /** The full text is the board part, a space, 'w' (Red to move) or 'b'
      (Black to move), and the fixed tail " - - 0 1"; the board part holds
      no space, so it is everything before the first one. */
  lemma FenLayout(g: Grid, turn: Color)
    ensures var fen := BoardToFen(g, turn); var n := |BoardText(g)|;
      fen[..n] == BoardText(g) && ' ' !in fen[..n] && fen[n] == ' ' && fen[n + 1] == TurnChar(turn)
      && fen[n + 2..] == " - - 0 1"
  {
    BoardTextSplits(g);
  }

  /** Two positions with the same FEN text have the same kind and colour on
      every cell, and the same side to move. */
  lemma FenDetermines(g: Grid, h: Grid, t: Color, u: Color)
    requires BoardToFen(g, t) == BoardToFen(h, u)
    ensures GridGlyphs(g) == GridGlyphs(h) && t == u
  {
    FenLayout(g, t);
    FenLayout(h, u);
    FenBoardRoundTrip(g);
    FenBoardRoundTrip(h);
    var fg, fh := BoardText(g), BoardText(h);
    var s := BoardToFen(g, t);
    FirstSpace(s, |fg|, |fh|);
    assert fg == s[..|fg|] == fh;
  }

  /** A text has only one first space. */
  lemma FirstSpace(s: string, i: int, j: int)
    requires 0 <= i < |s| && 0 <= j < |s|
    requires s[i] == ' ' && ' ' !in s[..i] && s[j] == ' ' && ' ' !in s[..j]
    ensures i == j
  {
  }

  /** The board part has ten segments between the slashes; each spells out
      nine cells and never writes two digits in a row. */
  lemma FenSegments(g: Grid)
    ensures |SplitRows(BoardText(g))| == ROWS
    ensures forall i | 0 <= i < ROWS ::
      DigitsApart(SplitRows(BoardText(g))[i]) && |Decode(SplitRows(BoardText(g))[i])| == COLS
  {
    BoardTextSplits(g);
    forall i | 0 <= i < ROWS
      ensures DigitsApart(SplitRows(BoardText(g))[i]) && |Decode(SplitRows(BoardText(g))[i])| == COLS
    {
      RowTextDigitsApart(g[i], 0);
      RowTextDecodes(g[i], 0);
      GlyphsLength(g[i]);
    }
  }
}
