/** What the three drawing routines of the sketch put on the screen, as pure
    functions of the state they read:
    - displayAtt: row 0 from column 0 (focus glyph, space, the value right
      aligned in a three-cell field with its minus sign, " dB") and two cells of
      row 1 from column 3 (the step marker);
    - displayFilter: row 1 from column cols - maxLen - 3 (focus glyph, space,
      the filter name left padded to maxLen);
    - displayUpdate: a clear, then the unfocused region, then the focused one. */
module Display {
  import opened LcdGrid
  import opened DecimalFormat

  /** Glyph codes: the two user glyphs are 0 and 1, the others plain ASCII. */
  const GlyphMarker: char := 0 as char
  const GlyphFocus: char := 1 as char
  const GlyphSpace: char := ' '
  const GlyphMinus: char := '-'

  const AttRow: int := 0
  const AttCol: int := 0
  const MarkerRow: int := 1
  const MarkerCol: int := 3
  const FilterRow: int := 1

  function Spaces(n: nat): (s: string)
    ensures |s| == n && forall i :: 0 <= i < n ==> s[i] == GlyphSpace
  {
    seq(n, _ => GlyphSpace)
  }

  /** Row 0 as displayAtt prints it for attenuation a. */
  function AttText(a: nat, focused: bool): (t: string)
    ensures var d := Decimal(a);
      && |t| == 7 + |d| - (if a < 10 then 0 else 1)
      && t[0] == (if focused then GlyphFocus else GlyphSpace) && t[1] == GlyphSpace
      && t[|t| - 3..] == " dB"
      && t[|t| - 3 - |d|..|t| - 3] == d
      && t[|t| - 4 - |d|] == (if a > 0 then GlyphMinus else GlyphSpace)
      && (a < 10 ==> t[2] == GlyphSpace)
  {
    [if focused then GlyphFocus else GlyphSpace, GlyphSpace]
    + (if a < 10 then [GlyphSpace] else [])
    + [if a > 0 then GlyphMinus else GlyphSpace]
    + Decimal(a) + " dB"
  }

  /** The two cells under the value: blank when the attenuator is not focused,
      otherwise the marker under the digit that UP and DOWN change. */
  function MarkerText(focused: bool, unity: bool): (t: string)
    ensures |t| == 2
    ensures GlyphMarker in t <==> focused
    ensures focused ==> t[if unity then 1 else 0] == GlyphMarker && t[if unity then 0 else 1] == GlyphSpace
    ensures !focused ==> t == [GlyphSpace, GlyphSpace]
  {
    if !focused then "  "
    else if unity then [GlyphSpace, GlyphMarker]
    else [GlyphMarker, GlyphSpace]
  }

  function AttOps(a: nat, focused: bool, unity: bool): seq<Op> {
    Puts(AttCol, AttRow, AttText(a, focused)) + Puts(MarkerCol, MarkerRow, MarkerText(focused, unity))
  }

  /** The number of pad spaces displayFilter writes before the name. */
  function PadLength(maxLen: nat, name: string): nat {
    if |name| < maxLen then maxLen - |name| else 0
  }

  /** Row 1 of the filter region as displayFilter prints it. */
  function FilterText(maxLen: nat, attFocused: bool, name: string): (t: string)
    ensures |t| == 2 + PadLength(maxLen, name) + |name|
    ensures |name| <= maxLen ==> |t| == maxLen + 2
    ensures t[0] == (if attFocused then GlyphSpace else GlyphFocus)
    ensures forall i :: 1 <= i < |t| - |name| ==> t[i] == GlyphSpace
    ensures t[|t| - |name|..] == name
  {
    [if attFocused then GlyphSpace else GlyphFocus, GlyphSpace] + Spaces(PadLength(maxLen, name)) + name
  }

  function FilterCol(cols: nat, maxLen: nat): int {
    cols - maxLen - 3
  }

  function FilterOps(cols: nat, maxLen: nat, attFocused: bool, name: string): seq<Op> {
    Puts(FilterCol(cols, maxLen), FilterRow, FilterText(maxLen, attFocused, name))
  }

  /** displayUpdate: a clear, then the unfocused region, the focused one
      last. */
  function UpdateOps(a: nat, attFocused: bool, unity: bool, cols: nat, maxLen: nat, name: string): (r: seq<Op>)
    ensures var ao := AttOps(a, attFocused, unity);
      var fo := FilterOps(cols, maxLen, attFocused, name);
      && |r| == 1 + |ao| + |fo| && r[0] == Clear
      && (if attFocused then r[1..1 + |fo|] == fo && r[|r| - |ao|..] == ao
          else r[1..1 + |ao|] == ao && r[|r| - |fo|..] == fo)
  {
    [Clear] + if attFocused then FilterOps(cols, maxLen, attFocused, name) + AttOps(a, attFocused, unity)
              else AttOps(a, attFocused, unity) + FilterOps(cols, maxLen, attFocused, name)
  }

  /** displayUpdate clears the screen once, first; everything after the clear
      is a write of one cell. */
  lemma UpdateOpsOneClear(a: nat, attFocused: bool, unity: bool, cols: nat, maxLen: nat, name: string)
    ensures var r := UpdateOps(a, attFocused, unity, cols, maxLen, name);
      r[0] == Clear && forall i :: 1 <= i < |r| ==> r[i].Put?
  {
    PutsCells(AttCol, AttRow, AttText(a, attFocused));
    PutsCells(MarkerCol, MarkerRow, MarkerText(attFocused, unity));
    PutsCells(FilterCol(cols, maxLen), FilterRow, FilterText(maxLen, attFocused, name));
  }

  /** The character displayAtt puts on (col, row), if it writes that cell. */
  function AttAt(a: nat, focused: bool, unity: bool, col: int, row: int): Option<char> {
    if row == AttRow then Within(AttText(a, focused), AttCol, col)
    else if row == MarkerRow then Within(MarkerText(focused, unity), MarkerCol, col)
    else None
  }

  /** The character displayFilter puts on (col, row), if it writes that cell. */
  function FilterAt(cols: nat, maxLen: nat, attFocused: bool, name: string, col: int, row: int): Option<char> {
    if row == FilterRow then Within(FilterText(maxLen, attFocused, name), FilterCol(cols, maxLen), col) else None
  }

  /** Row 0 layout for a two-digit attenuator: eight cells, the value in the
      three cells from column 2 (sign, tens, units), " dB" from column 5. */
  lemma AttTextLayout(a: nat, focused: bool)
    requires a < 100
    ensures var t := AttText(a, focused);
      && |t| == 8
      && t[0] == (if focused then GlyphFocus else GlyphSpace) && t[1] == GlyphSpace
      && t[2] == (if a >= 10 then GlyphMinus else GlyphSpace)
      && t[3] == (if a >= 10 then DigitChar(a / 10) else if a > 0 then GlyphMinus else GlyphSpace)
      && t[4] == DigitChar(a % 10)
      && t[5..] == " dB"
  {
    TwoDigitShape(a);
  }

  /** The three-cell value field reads back as the attenuation: its digits are
      the decimal value, and it carries a minus sign exactly when a > 0. */
  lemma AttFieldReadsBack(a: nat, focused: bool)
    requires a < 100
    ensures var field := AttText(a, focused)[2..5];
      && (GlyphMinus in field <==> a > 0)
      && var digits := if a >= 10 then field[1..] else field[2..];
      AllDigits(digits) && Value(digits) == a
  {
    AttTextLayout(a, focused);
    TwoDigitShape(a);
    var t := AttText(a, focused);
    var digits := if a >= 10 then t[3..5] else t[4..5];
    assert digits == Decimal(a);
    DecimalRoundTrip(a);
  }

  /** With the attenuator focused, the step marker sits under the digit that
      one UP or DOWN changes: column 4 (units) in unity mode, column 3 (tens)
      in tens mode; the other cell of the pair is blank. */
  lemma MarkerUnderStepDigit(a: nat, unity: bool)
    requires a < 100 && (unity || 10 <= a)
    ensures var c := if unity then 4 else 3;
      && AttAt(a, true, unity, c, MarkerRow) == Some(GlyphMarker)
      && AttAt(a, true, unity, 7 - c, MarkerRow) == Some(GlyphSpace)
      && AttAt(a, true, unity, c, AttRow) == Some(if unity then DigitChar(a % 10) else DigitChar(a / 10))
  {
    AttTextLayout(a, true);
  }

  /** Without focus displayAtt writes blanks on both marker cells, erasing
      any marker left there, and nothing else on that row. */
  lemma NoMarkerUnfocused(a: nat, unity: bool, col: int)
    ensures AttAt(a, false, unity, col, MarkerRow)
         == if MarkerCol <= col < MarkerCol + 2 then Some(GlyphSpace) else None
  {
  }

  /** The filter field has a fixed width: when the name fits, displayFilter
      writes maxLen + 2 cells, the name right-aligned so that it ends at
      column cols - 2 whichever filter is selected. */
  lemma FilterTextLayout(cols: nat, maxLen: nat, attFocused: bool, name: string)
    requires |name| <= maxLen
    ensures var t := FilterText(maxLen, attFocused, name);
      && |t| == maxLen + 2
      && FilterCol(cols, maxLen) + |t| - 1 == cols - 2
      && t[0] == (if attFocused then GlyphSpace else GlyphFocus)
      && (forall i :: 1 <= i < |t| - |name| ==> t[i] == GlyphSpace)
      && t[|t| - |name|..] == name
  {
  }

  /** displayAtt changes only its own cells: each of them shows what it wrote
      there, every other cell is left as it was. */
  lemma {:induction false} CellAtAttOps(log: seq<Op>, a: nat, focused: bool, unity: bool, col: int, row: int)
    ensures CellAt(log + AttOps(a, focused, unity), col, row) == Over(AttAt(a, focused, unity, col, row), CellAt(log, col, row))
  {
    var first := Puts(AttCol, AttRow, AttText(a, focused));
    var second := Puts(MarkerCol, MarkerRow, MarkerText(focused, unity));
    assert log + AttOps(a, focused, unity) == (log + first) + second;
    CellAtPuts(log + first, MarkerCol, MarkerRow, MarkerText(focused, unity), col, row);
    CellAtPuts(log, AttCol, AttRow, AttText(a, focused), col, row);
  }

  /** displayFilter changes only its own cells. */
  lemma {:induction false} CellAtFilterOps(log: seq<Op>, cols: nat, maxLen: nat, attFocused: bool, name: string, col: int, row: int)
    ensures CellAt(log + FilterOps(cols, maxLen, attFocused, name), col, row)
         == Over(FilterAt(cols, maxLen, attFocused, name, col, row), CellAt(log, col, row))
  {
    CellAtPuts(log, FilterCol(cols, maxLen), FilterRow, FilterText(maxLen, attFocused, name), col, row);
  }

  /** The screen after displayUpdate, whatever was on it before: the focused
      region is drawn over the unfocused one, which is drawn over a blank
      screen. Where the two regions share cells (a long filter name reaches
      the marker cells of row 1), the focused region is the one that shows. */
  lemma {:induction false} RedrawFocusedOnTop(log: seq<Op>, a: nat, attFocused: bool, unity: bool, cols: nat, maxLen: nat, name: string, col: int, row: int)
    ensures var att := AttAt(a, attFocused, unity, col, row);
      var filter := FilterAt(cols, maxLen, attFocused, name, col, row);
      CellAt(log + UpdateOps(a, attFocused, unity, cols, maxLen, name), col, row)
        == if attFocused then Over(att, Over(filter, Blank)) else Over(filter, Over(att, Blank))
  {
    var fo := FilterOps(cols, maxLen, attFocused, name);
    var ao := AttOps(a, attFocused, unity);
    var rest := if attFocused then fo + ao else ao + fo;
    assert UpdateOps(a, attFocused, unity, cols, maxLen, name) == [Clear] + rest;
    AppendAssoc(log, [Clear], rest);
    CellAtAfterClear(log, rest, col, row);
    if attFocused {
      AppendAssoc([Clear], fo, ao);
      CellAtAttOps([Clear] + fo, a, attFocused, unity, col, row);
      CellAtFilterOps([Clear], cols, maxLen, attFocused, name, col, row);
    } else {
      AppendAssoc([Clear], ao, fo);
      CellAtFilterOps([Clear] + ao, cols, maxLen, attFocused, name, col, row);
      CellAtAttOps([Clear], a, attFocused, unity, col, row);
    }
  }

  /** After displayUpdate the focus glyph marks exactly the focused region:
      it is at (0, 0) exactly when the attenuator is focused, and at the start
      of the filter field exactly when the filter is focused, even where the
      filter field starts on a marker cell. */
  lemma RedrawFocusGlyph(log: seq<Op>, a: nat, attFocused: bool, unity: bool, cols: nat, maxLen: nat, name: string)
    ensures var after := log + UpdateOps(a, attFocused, unity, cols, maxLen, name);
      && (CellAt(after, 0, 0) == GlyphFocus <==> attFocused)
      && (CellAt(after, FilterCol(cols, maxLen), FilterRow) == GlyphFocus <==> !attFocused)
  {
    assert AttText(a, attFocused)[0] == (if attFocused then GlyphFocus else GlyphSpace);
    RedrawFocusedOnTop(log, a, attFocused, unity, cols, maxLen, name, 0, 0);
    RedrawFocusedOnTop(log, a, attFocused, unity, cols, maxLen, name, FilterCol(cols, maxLen), FilterRow);
  }

  /** displayAtt(): row 0 from column 0, then the marker cells of row 1. */
  method DisplayAtt(lcd: Lcd, a: nat, focused: bool, unity: bool)
    requires lcd.Valid()
    modifies lcd
    ensures lcd.Valid() && lcd.log == old(lcd.log) + AttOps(a, focused, unity)
  {
    PrintAttValue(lcd, a, focused);
    PrintStepMarker(lcd, focused, unity);
    AttOpsAppend(old(lcd.log), a, focused, unity);
  }

  /** The first half of displayAtt: focus glyph, space, the value right
      aligned with its minus sign, " dB". */
  method PrintAttValue(lcd: Lcd, a: nat, focused: bool)
    requires lcd.Valid()
    modifies lcd
    ensures lcd.Valid() && lcd.log == old(lcd.log) + Puts(AttCol, AttRow, AttText(a, focused))
  {
    lcd.SetCursor(AttCol, AttRow);
    var focus := if focused then GlyphFocus else GlyphSpace;
    lcd.Write(focus);
    lcd.Write(GlyphSpace);
    assert lcd.run == [focus, GlyphSpace];
    if a < 10 {
      lcd.Write(GlyphSpace);
    }
    ghost var head := [focus, GlyphSpace] + (if a < 10 then [GlyphSpace] else []);
    assert lcd.run == head;
    lcd.Write(if a > 0 then GlyphMinus else GlyphSpace);
    lcd.Print(Decimal(a));
    lcd.Print(" dB");
    assert lcd.run == AttText(a, focused);
  }

  /** The second half of displayAtt: the two cells from column 3 of row 1. */
  method PrintStepMarker(lcd: Lcd, focused: bool, unity: bool)
    requires lcd.Valid()
    modifies lcd
    ensures lcd.Valid() && lcd.log == old(lcd.log) + Puts(MarkerCol, MarkerRow, MarkerText(focused, unity))
  {
    lcd.SetCursor(MarkerCol, MarkerRow);
    if !focused {
      lcd.Print("  ");
    } else if unity {
      lcd.Write(GlyphSpace);
      lcd.Write(GlyphMarker);
      assert lcd.run == [GlyphSpace, GlyphMarker];
    } else {
      lcd.Write(GlyphMarker);
      lcd.Write(GlyphSpace);
      assert lcd.run == [GlyphMarker, GlyphSpace];
    }
  }

  /** The two prints of displayAtt, appended one after the other, are AttOps. */
  lemma AttOpsAppend(log: seq<Op>, a: nat, focused: bool, unity: bool)
    ensures (log + Puts(AttCol, AttRow, AttText(a, focused))) + Puts(MarkerCol, MarkerRow, MarkerText(focused, unity))
         == log + AttOps(a, focused, unity)
  {
  }

  /** displayFilter(): focus glyph, space, the pad spaces one by one, the
      name. */
  method DisplayFilter(lcd: Lcd, maxLen: nat, attFocused: bool, name: string)
    requires lcd.Valid()
    modifies lcd
    ensures lcd.Valid() && lcd.log == old(lcd.log) + FilterOps(lcd.cols, maxLen, attFocused, name)
  {
    var focus := if attFocused then GlyphSpace else GlyphFocus;
    lcd.SetCursor(lcd.cols - maxLen - 3, FilterRow);
    ghost var log0 := lcd.base;
    lcd.Write(focus);
    lcd.Write(GlyphSpace);
    assert lcd.run == [focus, GlyphSpace] + Spaces(0);
    if |name| < maxLen {
      var i := 0;
      while i < maxLen - |name|
        invariant 0 <= i <= maxLen - |name|
        invariant lcd.Valid() && lcd.base == log0
        invariant lcd.startCol == FilterCol(lcd.cols, maxLen) && lcd.startRow == FilterRow
        invariant lcd.run == [focus, GlyphSpace] + Spaces(i)
      {
        lcd.Write(GlyphSpace);
        assert [focus, GlyphSpace] + Spaces(i) + [GlyphSpace] == [focus, GlyphSpace] + Spaces(i + 1);
        i := i + 1;
      }
    }
    assert lcd.run == [focus, GlyphSpace] + Spaces(PadLength(maxLen, name));
    lcd.Print(name);
    assert lcd.run == FilterText(maxLen, attFocused, name);
  }

  /** displayUpdate(): clear, then the unfocused region, then the focused
      one. */
  method DisplayUpdate(lcd: Lcd, a: nat, attFocused: bool, unity: bool, maxLen: nat, name: string)
    requires lcd.Valid()
    modifies lcd
    ensures lcd.Valid() && lcd.log == old(lcd.log) + UpdateOps(a, attFocused, unity, lcd.cols, maxLen, name)
  {
    ghost var log0 := lcd.log;
    lcd.Clear();
    if attFocused {
      DisplayFilter(lcd, maxLen, attFocused, name);
      DisplayAtt(lcd, a, attFocused, unity);
      AppendAssoc(log0, [Clear], FilterOps(lcd.cols, maxLen, attFocused, name) + AttOps(a, attFocused, unity));
      AppendAssoc(log0 + [Clear], FilterOps(lcd.cols, maxLen, attFocused, name), AttOps(a, attFocused, unity));
    } else {
      DisplayAtt(lcd, a, attFocused, unity);
      DisplayFilter(lcd, maxLen, attFocused, name);
      AppendAssoc(log0, [Clear], AttOps(a, attFocused, unity) + FilterOps(lcd.cols, maxLen, attFocused, name));
      AppendAssoc(log0 + [Clear], AttOps(a, attFocused, unity), FilterOps(lcd.cols, maxLen, attFocused, name));
    }
  }
}
