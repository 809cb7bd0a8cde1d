/**
 * src/vga.c as code: the text buffer and the cursor variables, updated in
 * place cell by cell.  Every method is proved against the value functions of
 * module Console.
 */
module Vga {
  import opened Console
  import opened Decimal
  import opened Machine32

  class Terminal {
    const buffer: array<Cell>
    var row: nat
    var col: nat
    var color: nat

    /** The cursor is on the screen. */
    ghost predicate Valid() reads this {
      buffer.Length == CELLS && row < 25 && col < WIDTH
    }

    ghost function View(): (s: Screen)
      reads this, buffer
    {
      Screen(buffer[..], row, col, color)
    }

    /** vga_init. */
    constructor ()
      ensures Valid() && fresh(buffer)
      ensures View() == Screen(Blanks(CELLS, 7), 0, 0, 7)
    {
      buffer := new Cell[CELLS](_ => Cell(' ', 7));
      row, col, color := 0, 0, 7;
      new;
      assert buffer[..] == Blanks(CELLS, 7);
    }

    method SetCursor(r: nat, k: nat)
      requires Valid() && r < 25 && k < WIDTH
      modifies this`row, this`col
      ensures Valid() && View() == old(View()).(row := r, col := k)
    {
      row, col := r, k;
    }

    /** Blanks in the current colour from cell `from` up to the end of the buffer. */
    method BlankFrom(from: nat)
      requires buffer.Length == CELLS && from <= CELLS
      modifies buffer
      ensures buffer[..] == old(buffer[..from]) + Blanks(CELLS - from, color)
    {
      var i := from;
      while i < CELLS
        invariant from <= i <= CELLS
        invariant buffer[..from] == old(buffer[..from])
        invariant forall k :: from <= k < i ==> buffer[k] == Cell(' ', color)
      {
        buffer[i] := Cell(' ', color);
        i := i + 1;
      }
    }

    method Clear()
      requires Valid()
      modifies this`row, this`col, buffer
      ensures Valid() && View() == old(View()).Clear()
      ensures row == 1 && col == 0 && buffer[..80] == old(buffer[..80])
      ensures forall i :: 80 <= i < 2000 ==> buffer[i] == Cell(' ', color)
    {
      BlankFrom(WIDTH);
      row, col := 1, 0;
    }

    /** Row `r` receives the row below it. */
    method CopyRowUp(r: nat)
      requires buffer.Length == CELLS && 1 <= r < 24
      modifies buffer
      ensures forall i :: 0 <= i < CELLS ==>
        buffer[i] == if r * WIDTH <= i < (r + 1) * WIDTH then old(buffer[i + WIDTH]) else old(buffer[i])
    {
      var k := 0;
      while k < WIDTH
        invariant 0 <= k <= WIDTH
        invariant forall i :: 0 <= i < r * WIDTH ==> buffer[i] == old(buffer[i])
        invariant forall i :: r * WIDTH <= i < r * WIDTH + k ==> buffer[i] == old(buffer[i + WIDTH])
        invariant forall i :: r * WIDTH + k <= i < CELLS ==> buffer[i] == old(buffer[i])
      {
        buffer[r * WIDTH + k] := buffer[(r + 1) * WIDTH + k];
        k := k + 1;
      }
    }

    method Scroll()
      requires buffer.Length == CELLS
      modifies this`row, this`col, buffer
      ensures Valid() && View() == old(View()).Scroll()
      ensures row == 24 && col == 0 && forall i :: 1920 <= i < 2000 ==> buffer[i] == Cell(' ', color)
    {
      var r := 1;
      while r < 24
        invariant 1 <= r <= 24
        invariant forall i :: 0 <= i < CELLS ==>
          buffer[i] == if WIDTH <= i < r * WIDTH then old(buffer[i + WIDTH]) else old(buffer[i])
      {
        CopyRowUp(r);
        r := r + 1;
      }
      assert buffer[..24 * WIDTH] == old(buffer[..])[..WIDTH] + old(buffer[..])[2 * WIDTH..];
      BlankFrom(24 * WIDTH);
      row, col := 24, 0;
    }

    method PutChar(c: char)
      requires Valid()
      modifies this`row, this`col, buffer
      ensures Valid() && View() == old(View()).Put(c)
    {
      if row == 0 { row := 1; }
      if c == '\n' {
        col := 0;
        row := row + 1;
      } else if c == '\r' {
        col := 0;
      } else if c == '\U{8}' {
        if col > 0 {
          col := col - 1;
        } else if row > 1 {
          row := row - 1;
          col := WIDTH - 1;
        }
        buffer[row * WIDTH + col] := Cell(' ', color);
      } else {
        buffer[row * WIDTH + col] := Cell(c, color);
        col := col + 1;
        if col >= WIDTH {
          col := 0;
          row := row + 1;
        }
      }
      if row >= 25 { Scroll(); }
    }

    method Print(s: string)
      requires Valid()
      modifies this`row, this`col, buffer
      ensures Valid() && View() == PutAll(old(View()), s)
    {
      var i := 0;
      while i < |s|
        invariant 0 <= i <= |s| && Valid()
        invariant PutAll(View(), s[i..]) == PutAll(old(View()), s)
      {
        PutChar(s[i]);
        i := i + 1;
      }
    }

    /** vga_print_color: the colour holds for this text only. */
    method PrintColor(s: string, k: nat)
      requires Valid()
      modifies this`row, this`col, this`color, buffer
      ensures Valid() && View() == PutAll(old(View()).(color := k), s).(color := old(color))
    {
      var saved := color;
      color := k;
      Print(s);
      color := saved;
    }

    method WriteAt(r: nat, k: nat, c: char, color: nat)
      requires Valid() && r < 25 && k < WIDTH
      modifies buffer
      ensures buffer[..] == old(buffer[..])[r * WIDTH + k := Cell(c, color)]
    {
      buffer[r * WIDTH + k] := Cell(c, color);
    }

    /** vga_print_at stops at the end of the text or of the row. */
    method PrintAt(r: nat, k: nat, s: string, color: nat)
      requires Valid() && r < 25 && k <= WIDTH
      modifies buffer
      ensures buffer[..r * WIDTH] == old(buffer[..r * WIDTH])
      ensures buffer[r * WIDTH..(r + 1) * WIDTH] == Overlay(old(buffer[r * WIDTH..(r + 1) * WIDTH]), k, s, color)
      ensures buffer[(r + 1) * WIDTH..] == old(buffer[(r + 1) * WIDTH..])
    {
      var i := 0;
      while i < |s| && k + i < WIDTH
        invariant 0 <= i <= |s| && k + i <= WIDTH
        invariant forall j :: 0 <= j < i ==> buffer[r * WIDTH + k + j] == Cell(s[j], color)
        invariant forall j :: 0 <= j < r * WIDTH + k || r * WIDTH + k + i <= j < CELLS ==> buffer[j] == old(buffer[j])
      {
        WriteAt(r, k + i, s[i], color);
        i := i + 1;
      }
      ghost var row, before := buffer[r * WIDTH..(r + 1) * WIDTH], old(buffer[r * WIDTH..(r + 1) * WIDTH]);
      assert forall j :: 0 <= j < k || k + i <= j < WIDTH ==> row[j] == before[j];
      assert forall j :: 0 <= j < i ==> row[k + j] == Cell(s[j], color);
      OverlayIs(before, row, k, s, color, i);
    }

    /** The uptime text, formatted in `buf` with the digits in between in an 8-byte `tmp`. */
    method FormatUptime(ticks: nat, buf: array<char>, tmp: array<char>)
      requires ticks < WORD && buf.Length == 16 && tmp.Length == 8 && buf != tmp
      modifies buf, tmp
      ensures |UptimeText(ticks)| < 16 && buf[..|UptimeText(ticks)|] == UptimeText(ticks)
      ensures buf[|UptimeText(ticks)|] == '\0'
    {
      var secs := ticks / 100;
      buf[0], buf[1], buf[2], buf[3] := 'U', 'P', ':', ' ';
      var i := 4;
      DigitsFit(ticks);
      if secs == 0 {
        buf[i] := '0';
        i := i + 1;
      } else {
        var j := Collect(secs, tmp);
        i := TurnRound(tmp, j, buf, i, Digits(secs));
      }
      assert buf[..i] == "UP: " + Digits(secs);
      buf[i] := 's';
      i := i + 1;
      buf[i] := '\0';
    }

    method DrawStatusbar(ticks: nat)
      requires Valid() && ticks < WORD
      modifies buffer
      ensures Valid() && View() == OnTheScreen(old(View()), StatusBar(ticks))
    {
      var c := 0;
      while c < WIDTH
        invariant 0 <= c <= WIDTH
        invariant buffer[..c] == Blanks(c, STATUS_COLOR)
        invariant buffer[c..] == old(buffer[c..])
      {
        WriteAt(0, c, ' ', STATUS_COLOR);
        c := c + 1;
      }
      PrintAt(0, 1, "Vamos OS v1.0", STATUS_COLOR);
      var buf, tmp := new char[16], new char[8];
      FormatUptime(ticks, buf, tmp);
      PrintAt(0, 70, buf[..|UptimeText(ticks)|], STATUS_COLOR);
    }
  }
}
