/**
 * src/vga.c: the 80x25 text screen.  Rows 1 to 24 are a window onto a page that
 * never scrolls: the page only grows at its end, and what has left the window
 * is never written again.  Row 0 is the status bar.
 */
module Console {
  import opened Decimal

  const WIDTH := 80
  const CELLS := 2000
  /** The cells of rows 1 to 24. */
  const VISIBLE := 1920

  /** A 16-bit entry of the text buffer: character byte and colour byte. */
  datatype Cell = Cell(c: char, color: nat)

  function Blanks(n: nat, color: nat): seq<Cell> { seq(n, _ => Cell(' ', color)) }

  // ---- The page -------------------------------------------------------------

  /** All text since the screen was first cleared, as one run of 80-column rows; `pos` is the cursor. */
  datatype Page = Page(cells: seq<Cell>, pos: nat, color: nat) {
    predicate Valid() {
      |cells| % WIDTH == 0 && |cells| >= VISIBLE && |cells| - VISIBLE <= pos < |cells|
    }

    /** The first visible cell. */
    function Top(): nat
      requires Valid()
    {
      |cells| - VISIBLE
    }

    /** A cursor that has left the last row gets a new blank row. */
    function Grown(): Page {
      if pos == |cells| then this.(cells := cells + Blanks(WIDTH, color)) else this
    }

    function Put(c: char): (p: Page)
      requires Valid()
      ensures p.Valid()
    {
      if c == '\n' then this.(pos := (pos / WIDTH + 1) * WIDTH).Grown()
      else if c == '\r' then this.(pos := pos - pos % WIDTH)
      else if c == '\U{8}' then
        var q := if pos == Top() then pos else pos - 1;
        this.(cells := cells[q := Cell(' ', color)], pos := q)
      else this.(cells := cells[pos := Cell(c, color)], pos := pos + 1).Grown()
    }

    /** A cleared screen is 24 fresh rows. */
    function Clear(): (p: Page)
      requires Valid()
      ensures p.Valid()
    {
      Page(cells + Blanks(VISIBLE, color), |cells|, color)
    }
  }

  // ---- The screen, on values --------------------------------------------------

  /** The text buffer with vga_row, vga_col and vga_color. */
  datatype Screen = Screen(cells: seq<Cell>, row: nat, col: nat, color: nat) {
    predicate Valid() { |cells| == CELLS && row < 25 && col < WIDTH }

    /** vga_scroll. */
    function Scroll(): Screen
      requires |cells| == CELLS
    {
      Screen(cells[..WIDTH] + cells[2 * WIDTH..] + Blanks(WIDTH, color), 24, 0, color)
    }

    function ScrollIfBelow(): Screen
      requires |cells| == CELLS
    {
      if row >= 25 then Scroll() else this
    }

    /** vga_putchar, with its row and column arithmetic. */
    function Put(c: char): (s: Screen)
      requires Valid()
      ensures s.Valid()
    {
      var r := if row == 0 then 1 else row;
      if c == '\n' then this.(row := r + 1, col := 0).ScrollIfBelow()
      else if c == '\r' then this.(row := r, col := 0)
      else if c == '\U{8}' then
        var (r', k) := if col > 0 then (r, col - 1) else if r > 1 then (r - 1, WIDTH - 1) else (r, col);
        Screen(cells[r' * WIDTH + k := Cell(' ', color)], r', k, color)
      else
        var s := this.(cells := cells[r * WIDTH + col := Cell(c, color)]);
        (if col + 1 >= WIDTH then s.(row := r + 1, col := 0) else s.(row := r, col := col + 1)).ScrollIfBelow()
    }

    /** vga_clear. */
    function Clear(): (s: Screen)
      requires Valid()
      ensures s.Valid()
    {
      Screen(cells[..WIDTH] + Blanks(VISIBLE, color), 1, 0, color)
    }
  }

  /** The screen shows the last 24 rows of the page, cursor and colour included. */
  predicate Shows(s: Screen, p: Page) {
    && s.Valid() && p.Valid() && s.color == p.color
    && s.cells[WIDTH..] == p.cells[p.Top()..]
    && (if s.row == 0 then 1 else s.row) * WIDTH + s.col == p.pos - p.Top() + WIDTH
  }

  lemma WriteShows(s: Screen, p: Page, i: nat, cell: Cell)
    requires |s.cells| == CELLS && |p.cells| >= VISIBLE && WIDTH <= i < CELLS
    requires s.cells[WIDTH..] == p.cells[|p.cells| - VISIBLE..]
    ensures s.cells[i := cell][WIDTH..] == p.cells[|p.cells| - VISIBLE + i - WIDTH := cell][|p.cells| - VISIBLE..]
  {
  }

  /** The cursor may have moved below the last row: scrolling the screen is growing the page. */
  lemma LandShows(s: Screen, p: Page)
    requires |s.cells| == CELLS && s.color == p.color && 1 <= s.row <= 25 && s.col < WIDTH
    requires s.row == 25 ==> s.col == 0
    requires |p.cells| % WIDTH == 0 && |p.cells| >= VISIBLE && |p.cells| - VISIBLE <= p.pos <= |p.cells|
    requires s.cells[WIDTH..] == p.cells[|p.cells| - VISIBLE..]
    requires s.row * WIDTH + s.col == p.pos - |p.cells| + CELLS
    ensures Shows(s.ScrollIfBelow(), p.Grown())
    ensures s.ScrollIfBelow().cells[..WIDTH] == s.cells[..WIDTH] && 1 <= s.ScrollIfBelow().row
  {
  }

  lemma BackspaceShows(s: Screen, p: Page)
    requires Shows(s, p)
    ensures Shows(s.Put('\U{8}'), p.Put('\U{8}'))
    ensures s.Put('\U{8}').cells[..WIDTH] == s.cells[..WIDTH] && 1 <= s.Put('\U{8}').row
  {
    hide Screen.Scroll, Screen.ScrollIfBelow, Page.Grown, Blanks;
    var i := (if s.row == 0 then 1 else s.row) * WIDTH + s.col;
    WriteShows(s, p, if p.pos == p.Top() then i else i - 1, Cell(' ', s.color));
  }

  lemma WrittenShows(s: Screen, p: Page, c: char)
    requires Shows(s, p) && c != '\n' && c != '\r' && c != '\U{8}'
    ensures Shows(s.Put(c), p.Put(c))
    ensures s.Put(c).cells[..WIDTH] == s.cells[..WIDTH] && 1 <= s.Put(c).row
  {
    hide Screen.Scroll, Screen.ScrollIfBelow, Page.Grown, Blanks;
    var r := if s.row == 0 then 1 else s.row;
    var i := r * WIDTH + s.col;
    WriteShows(s, p, i, Cell(c, s.color));
    var s1 := s.(cells := s.cells[i := Cell(c, s.color)]);
    var s2 := if s.col + 1 >= WIDTH then s1.(row := r + 1, col := 0) else s1.(row := r, col := s.col + 1);
    LandShows(s2, p.(cells := p.cells[p.pos := Cell(c, p.color)], pos := p.pos + 1));
  }

  lemma NewlineShows(s: Screen, p: Page)
    requires Shows(s, p)
    ensures Shows(s.Put('\n'), p.Put('\n'))
    ensures s.Put('\n').cells[..WIDTH] == s.cells[..WIDTH] && 1 <= s.Put('\n').row
  {
    hide Screen.ScrollIfBelow, Page.Grown;
    var r := if s.row == 0 then 1 else s.row;
    LandShows(s.(row := r + 1, col := 0), p.(pos := (p.pos / WIDTH + 1) * WIDTH));
  }

  lemma ReturnShows(s: Screen, p: Page)
    requires Shows(s, p)
    ensures Shows(s.Put('\r'), p.Put('\r'))
    ensures s.Put('\r').cells[..WIDTH] == s.cells[..WIDTH] && 1 <= s.Put('\r').row
  {
    hide Screen.ScrollIfBelow, Page.Grown;
  }

  /** One character: the screen goes on showing the page, and row 0 is not written. */
  lemma PutShows(s: Screen, p: Page, c: char)
    requires Shows(s, p)
    ensures Shows(s.Put(c), p.Put(c))
    ensures s.Put(c).cells[..WIDTH] == s.cells[..WIDTH] && 1 <= s.Put(c).row
  {
    hide Screen.Put, Page.Put, Page.Top;
    if c == '\n' {
      NewlineShows(s, p);
    } else if c == '\r' {
      ReturnShows(s, p);
    } else if c == '\U{8}' {
      BackspaceShows(s, p);
    } else {
      WrittenShows(s, p, c);
    }
  }

  /** vga_print. */
  function PutAll(s: Screen, text: string): (s': Screen)
    requires s.Valid()
    ensures s'.Valid()
    decreases |text|
  {
    if text == "" then s else PutAll(s.Put(text[0]), text[1..])
  }

  // ---- Runs -------------------------------------------------------------------

  datatype Event =
    | Char(c: char)
    | SetColor(k: nat)
    | SetCursor(r: nat, col: nat)
    | Clear
    | StatusBar(ticks: nat)

  /** vga_set_cursor trusts its caller to name a cell of the screen. */
  predicate OnScreen(e: Event) { e.SetCursor? ==> e.r < 25 && e.col < WIDTH }

  const STATUS_COLOR := 0x17

  function Colored(text: string, color: nat): (cells: seq<Cell>)
    ensures |cells| == |text|
  {
    seq(|text|, i requires 0 <= i < |text| => Cell(text[i], color))
  }

  /** `text` laid over `row` from column `col`, cut off at the right edge. */
  function Overlay(row: seq<Cell>, col: nat, text: string, color: nat): (cells: seq<Cell>)
    requires col <= |row|
    ensures |cells| == |row|
  {
    var n := if |text| < |row| - col then |text| else |row| - col;
    row[..col] + Colored(text[..n], color) + row[col + n..]
  }

  lemma OverlayLands(row: seq<Cell>, col: nat, text: string, color: nat, n: nat)
    requires col <= |row| && n == if |text| < |row| - col then |text| else |row| - col
    ensures Overlay(row, col, text, color)[col..col + n] == Colored(text[..n], color)
    ensures Overlay(row, col, text, color)[..col] == row[..col]
  {
  }

  /** A row that has the first `n` characters of `text` at `col` and is otherwise as before is the overlay. */
  lemma OverlayIs(before: seq<Cell>, row: seq<Cell>, col: nat, text: string, color: nat, n: nat)
    requires col <= |before| == |row| && n == if |text| < |before| - col then |text| else |before| - col
    requires forall j :: 0 <= j < col || col + n <= j < |row| ==> row[j] == before[j]
    requires forall j :: 0 <= j < n ==> row[col + j] == Cell(text[j], color)
    ensures row == Overlay(before, col, text, color)
  {
    assert row[..col] == before[..col];
    assert row[col..col + n] == Colored(text[..n], color);
    assert row[col + n..] == before[col + n..];
    assert row == row[..col] + row[col..col + n] + row[col + n..];
  }

  function UptimeText(ticks: nat): string { "UP: " + Digits(ticks / 100) + "s" }

  /** Row 0 as vga_draw_statusbar leaves it. */
  function StatusRow(ticks: nat): (row: seq<Cell>)
    ensures |row| == WIDTH
  {
    var named := Overlay(Blanks(WIDTH, STATUS_COLOR), 1, "Vamos OS v1.0", STATUS_COLOR);
    Overlay(named, 70, UptimeText(ticks), STATUS_COLOR)
  }

  function OnTheScreen(s: Screen, e: Event): (s': Screen)
    requires s.Valid() && OnScreen(e)
    ensures s'.Valid()
  {
    match e
    case Char(c) => s.Put(c)
    case SetColor(k) => s.(color := k)
    case SetCursor(r, col) => s.(row := r, col := col)
    case Clear => s.Clear()
    case StatusBar(ticks) => s.(cells := StatusRow(ticks) + s.cells[WIDTH..])
  }

  function OnThePage(p: Page, e: Event): (p': Page)
    requires p.Valid() && OnScreen(e)
    ensures p'.Valid()
  {
    match e
    case Char(c) => p.Put(c)
    case SetColor(k) => p.(color := k)
    case SetCursor(r, col) => p.(pos := p.Top() + (if r == 0 then 0 else r - 1) * WIDTH + col)
    case Clear => p.Clear()
    case StatusBar(_) => p
  }

  lemma EventShows(s: Screen, p: Page, e: Event)
    requires Shows(s, p) && OnScreen(e)
    ensures Shows(OnTheScreen(s, e), OnThePage(p, e))
    ensures OnTheScreen(s, e).cells[..WIDTH] == if e.StatusBar? then StatusRow(e.ticks) else s.cells[..WIDTH]
  {
    hide Screen.Put, Page.Put, StatusRow;
    if e.Char? { PutShows(s, p, e.c); }
  }

  function ScreenAfter(s: Screen, events: seq<Event>): (s': Screen)
    requires s.Valid() && forall e <- events :: OnScreen(e)
    ensures s'.Valid()
    decreases |events|
  {
    if events == [] then s else ScreenAfter(OnTheScreen(s, events[0]), events[1..])
  }

  function PageAfter(p: Page, events: seq<Event>): (p': Page)
    requires p.Valid() && forall e <- events :: OnScreen(e)
    ensures p'.Valid()
    decreases |events|
  {
    if events == [] then p else PageAfter(OnThePage(p, events[0]), events[1..])
  }

  /** Row 0 by the status bar alone. */
  function TopRowAfter(row: seq<Cell>, events: seq<Event>): seq<Cell>
    decreases |events|
  {
    if events == [] then row
    else TopRowAfter(if events[0].StatusBar? then StatusRow(events[0].ticks) else row, events[1..])
  }

  /**
   * Over every run: rows 1 to 24 are the last 24 rows of the page, the cursor is where the page's is,
   * and row 0 is whatever the status bar last drew there.
   */
  lemma {:induction false} ScreenIsWindow(s: Screen, p: Page, events: seq<Event>)
    requires Shows(s, p) && forall e <- events :: OnScreen(e)
    ensures Shows(ScreenAfter(s, events), PageAfter(p, events))
    ensures ScreenAfter(s, events).cells[..WIDTH] == TopRowAfter(s.cells[..WIDTH], events)
    decreases |events|
  {
    hide OnTheScreen, OnThePage, StatusRow;
    if events != [] {
      EventShows(s, p, events[0]);
      ScreenIsWindow(OnTheScreen(s, events[0]), OnThePage(p, events[0]), events[1..]);
    }
  }

  /** vga_init: a blank screen shows a page of 24 blank rows. */
  lemma BlankScreenShowsBlankPage()
    ensures Shows(Screen(Blanks(CELLS, 7), 0, 0, 7), Page(Blanks(VISIBLE, 7), 0, 7))
  {
  }

  /** The page never shrinks, and rows that have scrolled off are never rewritten. */
  lemma {:induction false} HistoryIsKept(p: Page, events: seq<Event>)
    requires p.Valid() && forall e <- events :: OnScreen(e)
    ensures (var p' := PageAfter(p, events);
             p.Top() <= p'.Top() && p'.cells[..p.Top()] == p.cells[..p.Top()])
    decreases |events|
  {
    hide Blanks;
    if events != [] {
      var p1 := OnThePage(p, events[0]);
      assert p.Top() <= p1.Top() && p1.cells[..p.Top()] == p.cells[..p.Top()];
      HistoryIsKept(p1, events[1..]);
      assert PageAfter(p, events).cells[..p.Top()] == PageAfter(p, events).cells[..p1.Top()][..p.Top()];
    }
  }

  /** All of the uptime is on row 0. */
  predicate UptimeIsWhole(ticks: nat) {
    var text := UptimeText(ticks);
    |text| <= 10 && StatusRow(ticks)[70..70 + |text|] == Colored(text, STATUS_COLOR)
  }

  /** It is exactly while below 100000 seconds; beyond that its end is cut off at the screen's edge. */
  lemma UptimeIsWholeExactlyWhen(ticks: nat)
    ensures StatusRow(ticks)[1..14] == Colored("Vamos OS v1.0", STATUS_COLOR)
    ensures UptimeIsWhole(ticks) <==> ticks / 100 < 100000
  {
    hide Digits;
    assert Power10(5) == 100000;
    DigitsAreFew(ticks / 100, 5);
    var blank, name, text := Blanks(WIDTH, STATUS_COLOR), "Vamos OS v1.0", UptimeText(ticks);
    var named := Overlay(blank, 1, name, STATUS_COLOR);
    OverlayLands(blank, 1, name, STATUS_COLOR, 13);
    OverlayLands(named, 70, text, STATUS_COLOR, if |text| < 10 then |text| else 10);
    assert StatusRow(ticks)[1..14] == StatusRow(ticks)[..70][1..14] == named[1..14];
    assert name[..13] == name;
  }

  /** The characters of some cells. */
  function Text(cells: seq<Cell>): (s: string)
    ensures |s| == |cells|
  {
    seq(|cells|, i requires 0 <= i < |cells| => cells[i].c)
  }

  lemma TextOfColored(text: string, color: nat)
    ensures Text(Colored(text, color)) == text
  {
  }

  /**
   * Below 100000 seconds row 0 reads, from column 70 on, UP: then `k` digits then s, and those digits
   * stand for the whole seconds of 100 ticks each; before it there is nothing but the name.
   */
  lemma UptimeIsReadBack(ticks: nat) returns (k: nat)
    requires ticks / 100 < 100000
    ensures 1 <= k <= 5
    ensures (var row := StatusRow(ticks); var number := Text(row[74..74 + k]);
      && Text(row[70..74]) == "UP: " && row[74 + k].c == 's'
      && (forall i :: 0 <= i < k ==> IsDigit(number[i]))
      && 100 * Value(number) <= ticks < 100 * Value(number) + 100)
    ensures forall i :: i == 0 || 14 <= i < 70 ==> StatusRow(ticks)[i] == Cell(' ', 0x17)
  {
    hide Digits, Value;
    assert Power10(5) == 100000;
    DigitsAreFew(ticks / 100, 5);
    UptimeIsWholeExactlyWhen(ticks);
    ValueOfDigits(ticks / 100);
    var text, row := UptimeText(ticks), StatusRow(ticks);
    k := |Digits(ticks / 100)|;
    var shown := row[70..70 + |text|];
    TextOfColored(text, STATUS_COLOR);
    assert Text(row[70..74]) == Text(shown)[..4] == text[..4] == "UP: ";
    assert Text(row[74..74 + k]) == Text(shown)[4..4 + k] == text[4..4 + k] == Digits(ticks / 100);
    assert row[74 + k] == shown[4 + k];
  }

  // ---- Printed text ---------------------------------------------------------

  /** Printing `text` as a run. */
  function Printing(text: string): (events: seq<Event>)
    ensures |events| == |text| && forall e <- events :: OnScreen(e)
  {
    seq(|text|, i requires 0 <= i < |text| => Char(text[i]))
  }

  /** vga_print is that run on the screen. */
  lemma {:induction false} PrintIsARun(s: Screen, text: string)
    requires s.Valid()
    ensures PutAll(s, text) == ScreenAfter(s, Printing(text))
    decreases |text|
  {
    if text != "" {
      assert Printing(text)[1..] == Printing(text[1..]);
      PrintIsARun(s.Put(text[0]), text[1..]);
    }
  }

  lemma {:induction false} ScreenConcat(s: Screen, first: seq<Event>, second: seq<Event>)
    requires s.Valid() && forall e <- first + second :: OnScreen(e)
    ensures (forall e <- first :: OnScreen(e)) && forall e <- second :: OnScreen(e)
    ensures ScreenAfter(s, first + second) == ScreenAfter(ScreenAfter(s, first), second)
    decreases |first|
  {
    hide OnTheScreen, OnScreen;
    assert forall e :: e in first || e in second ==> e in first + second;
    if first == [] {
      assert first + second == second;
    } else {
      assert (first + second)[1..] == first[1..] + second;
      ScreenConcat(OnTheScreen(s, first[0]), first[1..], second);
    }
  }

  /** vga_print_color is a run that sets the colour, prints, and sets the old colour again. */
  lemma PrintColorIsARun(s: Screen, text: string, k: nat)
    requires s.Valid()
    ensures forall e <- [SetColor(k)] + Printing(text) + [SetColor(s.color)] :: OnScreen(e)
    ensures PutAll(s.(color := k), text).(color := s.color)
         == ScreenAfter(s, [SetColor(k)] + Printing(text) + [SetColor(s.color)])
  {
    hide Printing, Screen.Put;
    var last := [SetColor(s.color)];
    assert [SetColor(k)] + Printing(text) + last == [SetColor(k)] + (Printing(text) + last);
    assert last[1..] == [] && [SetColor(k)][1..] == [];
    ScreenConcat(s, [SetColor(k)], Printing(text) + last);
    ScreenConcat(s.(color := k), Printing(text), last);
    PrintIsARun(s.(color := k), text);
  }

  /** Text without control characters lands in order from the cursor on, across any number of rows. */
  lemma {:induction false} PlainTextLands(p: Page, text: string)
    requires p.Valid() && '\n' !in text && '\r' !in text && '\U{8}' !in text
    ensures (var p' := PageAfter(p, Printing(text));
      && p'.pos == p.pos + |text| && p'.color == p.color
      && p'.cells[..p.pos] == p.cells[..p.pos]
      && p'.cells[p.pos..p'.pos] == Colored(text, p.color))
    decreases |text|
  {
    if text != "" {
      assert Printing(text)[1..] == Printing(text[1..]);
      var p1, p' := p.Put(text[0]), PageAfter(p, Printing(text));
      assert text[0] in text && forall c :: c in text[1..] ==> c in text;
      PlainTextLands(p1, text[1..]);
      assert p'.cells[..p.pos] == p'.cells[..p1.pos][..p.pos] == p1.cells[..p.pos];
      assert p'.cells[p.pos] == p'.cells[..p1.pos][p.pos] == Cell(text[0], p.color);
      assert p'.cells[p.pos..p'.pos] == [p'.cells[p.pos]] + p'.cells[p1.pos..p'.pos];
    }
  }

  /** A newline moves to the start of the next row, which is added, blank, when there is none; no text is touched. */
  lemma NewlineEndsTheRow(p: Page)
    requires p.Valid()
    ensures (var p' := p.Put('\n');
      && p'.pos % 80 == 0 && p.pos < p'.pos <= p.pos + 80 && p'.color == p.color
      && |p.cells| <= |p'.cells| && p'.cells[..|p.cells|] == p.cells
      && forall i :: |p.cells| <= i < |p'.cells| ==> p'.cells[i] == Cell(' ', p.color))
  {
  }

  /** A carriage return moves to the start of the row. */
  lemma ReturnGoesToTheMargin(p: Page)
    requires p.Valid()
    ensures (var p' := p.Put('\r');
      && p'.pos % 80 == 0 && p'.pos <= p.pos < p'.pos + 80 && p'.color == p.color && p'.cells == p.cells)
  {
  }

  /** A backspace after any other character takes the cursor back and leaves a space, also across rows. */
  lemma BackspaceTakesBack(p: Page, c: char)
    requires p.Valid() && c != '\n' && c != '\r' && c != '\U{8}'
    ensures (var p' := p.Put(c).Put('\U{8}');
      && p'.pos == p.pos && p'.color == p.color
      && p'.cells[..|p.cells|] == p.cells[p.pos := Cell(' ', p.color)])
  {
  }

  lemma {:induction false} PrintingConcat(p: Page, a: string, b: string)
    requires p.Valid()
    ensures PageAfter(p, Printing(a + b)) == PageAfter(PageAfter(p, Printing(a)), Printing(b))
    decreases |a|
  {
    hide Page.Put;
    if a == "" {
      assert a + b == b;
    } else {
      assert (a + b)[1..] == a[1..] + b;
      assert Printing(a)[1..] == Printing(a[1..]) && Printing(a + b)[1..] == Printing(a[1..] + b);
      PrintingConcat(p.Put(a[0]), a[1..], b);
    }
  }

  /** The lines, each ended by a newline. */
  function Lines(lines: seq<string>): string {
    if lines == [] then "" else lines[0] + "\n" + Lines(lines[1..])
  }

  /** A line without control characters that leaves room on its row. */
  predicate FitsARow(line: string) {
    |line| < 80 && '\n' !in line && '\r' !in line && '\U{8}' !in line
  }

  lemma LineLands(p: Page, line: string)
    requires p.Valid() && p.pos % 80 == 0 && FitsARow(line)
    ensures (var p' := PageAfter(p, Printing(line + "\n"));
      && p'.pos == p.pos + 80 && p'.color == p.color && |p'.cells| >= p'.pos
      && p'.cells[..p.pos] == p.cells[..p.pos]
      && p'.cells[p.pos..p.pos + |line|] == Colored(line, p.color))
  {
    hide Page.Put, Printing, Page.Valid;
    PlainTextLands(p, line);
    PrintingConcat(p, line, "\n");
    var p1 := PageAfter(p, Printing(line));
    PrintingNewline(p1);
    assert p1.pos < |p1.cells| by { PosIsInside(p1); }
    SlicesKept(p1.cells, p1.Put('\n').cells, p.pos, p1.pos);
  }

  lemma PosIsInside(p: Page)
    requires p.Valid()
    ensures p.pos < |p.cells|
  {
  }

  lemma PrintingNewline(p: Page)
    requires p.Valid()
    ensures (var p' := PageAfter(p, Printing("\n"));
      && p' == p.Put('\n') && p'.pos % 80 == 0 && p.pos < p'.pos <= p.pos + 80 && p'.color == p.color
      && |p.cells| <= |p'.cells| && p'.cells[..|p.cells|] == p.cells && p'.pos <= |p'.cells|)
  {
    hide Page.Put;
    assert Printing("\n") == [Char('\n')] && Printing("\n")[1..] == [];
    NewlineEndsTheRow(p);
  }

  /** What stands in a prefix stands in the whole. */
  lemma SlicesKept(cells: seq<Cell>, cells': seq<Cell>, i: nat, j: nat)
    requires i <= j <= |cells| <= |cells'| && cells'[..|cells|] == cells
    ensures cells'[..i] == cells[..i] && cells'[i..j] == cells[i..j]
  {
    assert forall k :: 0 <= k < |cells| ==> cells'[..|cells|][k] == cells'[k];
  }

  /** Row `k` after the cell `pos` starts with the k-th line. */
  predicate LinesStand(cells: seq<Cell>, pos: nat, lines: seq<string>, color: nat) {
    && pos + 80 * |lines| <= |cells|
    && forall k :: 0 <= k < |lines| ==>
         && |lines[k]| < 80
         && cells[pos + 80 * k..pos + 80 * k + |lines[k]|] == Colored(lines[k], color)
  }

  /** One line more in front. */
  lemma OneMoreLineStands(cells: seq<Cell>, pos: nat, lines: seq<string>, color: nat)
    requires lines != [] && LinesStand(cells, pos + 80, lines[1..], color)
    requires |lines[0]| < 80 && cells[pos..pos + |lines[0]|] == Colored(lines[0], color)
    ensures LinesStand(cells, pos, lines, color)
  {
    forall k | 0 <= k < |lines|
      ensures |lines[k]| < 80 && cells[pos + 80 * k..pos + 80 * k + |lines[k]|] == Colored(lines[k], color)
    {
      if k > 0 {
        assert lines[1..][k - 1] == lines[k];
        assert pos + 80 + 80 * (k - 1) == pos + 80 * k;
      }
    }
  }

  /** Lines printed from the start of a row take one row each, in order, across any number of scrolls. */
  lemma {:induction false} LinesLandOnTheirRows(p: Page, lines: seq<string>)
    requires p.Valid() && p.pos % 80 == 0 && forall k :: 0 <= k < |lines| ==> FitsARow(lines[k])
    ensures (var p' := PageAfter(p, Printing(Lines(lines)));
      && p'.pos == p.pos + 80 * |lines| && p'.color == p.color
      && p'.cells[..p.pos] == p.cells[..p.pos]
      && LinesStand(p'.cells, p.pos, lines, p.color))
    decreases |lines|
  {
    hide Page.Put, LinesStand, Printing;
    if lines == [] {
      assert Printing("") == [] by { PrintsNothing(); }
      NoLinesStand(p.cells, p.pos, p.color);
    } else {
      var first, rest := lines[0], lines[1..];
      var p1 := PageAfter(p, Printing(first + "\n"));
      PrintingConcat(p, first + "\n", Lines(rest));
      LineLands(p, first);
      LinesLandOnTheirRows(p1, rest);
      var p' := PageAfter(p1, Printing(Lines(rest)));
      SlicesKept(p1.cells[..p1.pos], p'.cells, p.pos, p.pos + |first|);
      SlicesKept(p1.cells[..p1.pos], p1.cells, p.pos, p.pos + |first|);
      OneMoreLineStands(p'.cells, p.pos, lines, p.color);
    }
  }

  lemma PrintsNothing()
    ensures Printing("") == []
  {
  }

  lemma NoLinesStand(cells: seq<Cell>, pos: nat, color: nat)
    requires pos <= |cells|
    ensures LinesStand(cells, pos, [], color)
  {
  }
}
