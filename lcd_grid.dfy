/** The character display as the controller drives it: a cursor, and a history
    of what was written where. The screen is not stored; each cell is read
    back from the history (the last write to it since the last clear, or a
    blank). The driver's own command protocol is not part of this model. */
module LcdGrid {

  datatype Option<T> = None | Some(value: T)

  /** One entry of the display's history: a full clear, or one character
      written into one cell. */
  datatype Op = Clear | Put(col: int, row: int, ch: char)

  /** What a cleared cell shows. */
  const Blank: char := ' '

  /** The writes of a string printed from (col, row): the cursor moves one
      cell to the right after each character. */
  function Puts(col: int, row: int, s: string): seq<Op>
    decreases |s|
  {
    if s == [] then [] else [Put(col, row, s[0])] + Puts(col + 1, row, s[1..])
  }

  /** The i-th write of a print puts the i-th character i cells to the right
      of where the print started. */
  lemma {:induction false} PutsCells(col: int, row: int, s: string)
    ensures |Puts(col, row, s)| == |s|
    ensures forall i :: 0 <= i < |s| ==> Puts(col, row, s)[i] == Put(col + i, row, s[i])
    decreases |s|
  {
    if s != [] {
      PutsCells(col + 1, row, s[1..]);
    }
  }

  /** Printing s and then t is printing s + t: the cursor ends where t begins. */
  lemma {:induction false} PutsAppend(col: int, row: int, s: string, t: string)
    ensures Puts(col, row, s + t) == Puts(col, row, s) + Puts(col + |s|, row, t)
    decreases |s|
  {
    if s == [] {
      assert s + t == t;
    } else {
      assert (s + t)[1..] == s[1..] + t;
      PutsAppend(col + 1, row, s[1..], t);
    }
  }

  lemma AppendAssoc(a: seq<Op>, b: seq<Op>, c: seq<Op>)
    ensures a + (b + c) == (a + b) + c
  {
  }

  /** What the cell (col, row) shows after the writes in log. */
  function CellAt(log: seq<Op>, col: int, row: int): char
    decreases |log|
  {
    if log == [] then Blank
    else match log[|log| - 1]
      case Clear => Blank
      case Put(c, r, ch) =>
        if c == col && r == row then ch else CellAt(log[..|log| - 1], col, row)
  }

  /** The cell shows top when something was written there, else below. */
  function Over(top: Option<char>, below: char): char {
    if top.Some? then top.value else below
  }

  /** The character of s that lands on col when s is printed from start. */
  function Within(s: string, start: int, col: int): (r: Option<char>)
    ensures r.Some? <==> start <= col < start + |s|
  {
    if start <= col < start + |s| then Some(s[col - start]) else None
  }

  /** Printing s covers exactly its own cells, with its own characters, and
      leaves every other cell as it was. */
  lemma {:induction false} CellAtPuts(log: seq<Op>, start: int, r0: int, s: string, col: int, row: int)
    ensures CellAt(log + Puts(start, r0, s), col, row)
         == Over(if row == r0 then Within(s, start, col) else None, CellAt(log, col, row))
    decreases |s|
  {
    if s == [] {
      assert log + Puts(start, r0, s) == log;
    } else {
      var init := s[..|s| - 1];
      var last := Put(start + |s| - 1, r0, s[|s| - 1]);
      assert s == init + [s[|s| - 1]];
      PutsAppend(start, r0, init, [s[|s| - 1]]);
      assert Puts(start, r0, s) == Puts(start, r0, init) + [last];
      var full := log + Puts(start, r0, s);
      assert full[..|full| - 1] == log + Puts(start, r0, init);
      assert full[|full| - 1] == last;
      CellAtPuts(log, start, r0, init, col, row);
    }
  }

  /** Nothing written before a clear shows after it. */
  lemma {:induction false} CellAtAfterClear(log: seq<Op>, rest: seq<Op>, col: int, row: int)
    ensures CellAt(log + [Clear] + rest, col, row) == CellAt([Clear] + rest, col, row)
    decreases |rest|
  {
    var a := log + [Clear] + rest;
    var b := [Clear] + rest;
    if rest == [] {
    } else {
      assert a[|a| - 1] == b[|b| - 1] == rest[|rest| - 1];
      var init := rest[..|rest| - 1];
      assert a[..|a| - 1] == log + [Clear] + init;
      assert b[..|b| - 1] == [Clear] + init;
      CellAtAfterClear(log, init, col, row);
    }
  }

  /** Writes that begin with a clear show the same whatever came before. */
  lemma ClearForgets(log: seq<Op>, ops: seq<Op>, col: int, row: int)
    requires |ops| > 0 && ops[0] == Clear
    ensures CellAt(log + ops, col, row) == CellAt(ops, col, row)
  {
    assert ops == [Clear] + ops[1..];
    assert log + ops == log + [Clear] + ops[1..];
    CellAtAfterClear(log, ops[1..], col, row);
  }

  /** The character display (16 columns on the keypad shield) with its cursor. Every write goes into the
      history; a write past the right edge lands on no visible cell. The
      ghost fields say how the history grew since the cursor was last placed:
      it is base followed by run, printed from (startCol, startRow). */
  class Lcd {
    const cols: nat
    var col: int
    var row: int
    var log: seq<Op>
    ghost var base: seq<Op>
    ghost var startCol: int
    ghost var startRow: int
    ghost var run: string

    ghost predicate Valid()
      reads this
    {
      log == base + Puts(startCol, startRow, run) && col == startCol + |run| && row == startRow
    }

    constructor (cols: nat)
      ensures Valid() && this.cols == cols
      ensures col == 0 && row == 0 && log == []
    {
      this.cols := cols;
      col, row := 0, 0;
      log := [];
      base, startCol, startRow, run := [], 0, 0, [];
    }

    method SetCursor(c: int, r: int)
      requires Valid()
      modifies this
      ensures Valid() && col == c && row == r && log == old(log)
      ensures base == log && startCol == c && startRow == r && run == []
    {
      col, row := c, r;
      base, startCol, startRow, run := log, c, r, [];
    }

    /** Writes one glyph at the cursor and advances the cursor. */
    method Write(ch: char)
      requires Valid()
      modifies this
      ensures Valid() && log == old(log) + Puts(old(col), old(row), [ch])
      ensures base == old(base) && startCol == old(startCol) && startRow == old(startRow)
      ensures run == old(run) + [ch]
    {
      PutsAppend(startCol, startRow, run, [ch]);
      log := log + Puts(col, row, [ch]);
      col := col + 1;
      run := run + [ch];
    }

    /** Writes a string at the cursor, one cell per character. */
    method Print(s: string)
      requires Valid()
      modifies this
      ensures Valid() && log == old(log) + Puts(old(col), old(row), s)
      ensures base == old(base) && startCol == old(startCol) && startRow == old(startRow)
      ensures run == old(run) + s
    {
      PutsAppend(startCol, startRow, run, s);
      log := log + Puts(col, row, s);
      col := col + |s|;
      run := run + s;
    }

    /** Blanks the whole screen and homes the cursor. */
    method Clear()
      requires Valid()
      modifies this
      ensures Valid() && log == old(log) + [Op.Clear]
      ensures col == 0 && row == 0 && base == log && startCol == 0 && startRow == 0 && run == []
    {
      log := log + [Op.Clear];
      col, row := 0, 0;
      base, startCol, startRow, run := log, 0, 0, [];
    }
  }
}
