/**
 * The line editor of shell_run (src/shell.c): the line in memory and the text on
 * the page agree after every key, however far the screen has scrolled.
 */
module LineEditor {
  import opened Console
  import Keyboard

  const MAX_LINE := 256

  /** The edited line: backspace removes the last character, a full line ignores the rest. */
  function Edit(line: string, key: char): (line': string)
    requires |line| < MAX_LINE
    ensures |line'| < MAX_LINE
  {
    if key == '\U{8}' then (if line == "" then line else line[..|line| - 1])
    else if |line| < MAX_LINE - 1 then line + [key]
    else line
  }

  /** The key reaches the screen unless it erases nothing or finds the line full. */
  predicate Echoed(line: string, key: char) {
    if key == '\U{8}' then line != "" else |line| < MAX_LINE - 1
  }

  /** What one round of the shell's loop may do while a line is typed: take a key, or redraw the status bar. */
  datatype Input = Key(key: char) | Redraw(ticks: nat)

  /** A line being typed on the page. */
  datatype Session = Session(line: string, page: Page) {
    predicate Valid() { |line| < MAX_LINE && page.Valid() }

    function Key(key: char): (s: Session)
      requires Valid()
      ensures s.Valid()
    {
      Session(Edit(line, key), if Echoed(line, key) then page.Put(key) else page)
    }
  }

  /** Keys the keyboard can produce, other than Enter. */
  predicate EditingKey(key: char) { Keyboard.Typable(key) && key != '\n' }

  predicate AllSpaces(cells: seq<Cell>) { forall i :: 0 <= i < |cells| ==> cells[i].c == ' ' }

  /**
   * The page holds `before`, then exactly the line, in one colour, with the cursor just after it,
   * and only spaces from there on.
   */
  predicate Agrees(s: Session, before: seq<Cell>, color: nat) {
    && s.Valid() && s.page.color == color
    && s.page.Top() <= |before| && |before| + |s.line| == s.page.pos
    && s.page.cells[..|before|] == before
    && s.page.cells[|before|..s.page.pos] == Colored(s.line, color)
    && AllSpaces(s.page.cells[s.page.pos..])
  }

  /** A character typed: one more cell, and only spaces after it, also on a row that has just been added. */
  lemma TypedAgrees(s: Session, key: char, before: seq<Cell>, color: nat)
    requires Agrees(s, before, color) && EditingKey(key) && key != '\U{8}' && |s.line| < MAX_LINE - 1
    ensures Agrees(s.Key(key), before, color)
  {
    hide Keyboard.Typable, Page.Grown;
    var p, p' := s.page, s.page.Put(key);
    var written := p.(cells := p.cells[p.pos := Cell(key, color)], pos := p.pos + 1);
    assert p' == written.Grown() && key != '\n' && key != '\r' by { PutWrites(p, key); }
    GrownKeeps(written);
    assert p'.cells[..p.pos] == p.cells[..p.pos];
    assert p'.cells[..|before|] == p.cells[..p.pos][..|before|];
    assert p'.cells[|before|..p.pos] == p.cells[|before|..p.pos];
    assert p'.cells[|before|..p'.pos] == p'.cells[|before|..p.pos] + [p'.cells[p.pos]];
    assert Colored(s.line + [key], color) == Colored(s.line, color) + [Cell(key, color)];
  }

  lemma PutWrites(p: Page, key: char)
    requires p.Valid() && EditingKey(key) && key != '\U{8}'
    ensures p.Put(key) == p.(cells := p.cells[p.pos := Cell(key, p.color)], pos := p.pos + 1).Grown()
    ensures key != '\n' && key != '\r'
  {
  }

  lemma GrownKeeps(p: Page)
    requires p.pos <= |p.cells| && AllSpaces(p.cells[p.pos..])
    ensures p.Grown().pos == p.pos && p.Grown().color == p.color
    ensures |p.Grown().cells| == |p.cells| + if p.pos == |p.cells| then WIDTH else 0
    ensures p.Grown().cells[..|p.cells|] == p.cells && AllSpaces(p.Grown().cells[p.pos..])
  {
  }

  /** A character erased: its cell is blank again and the cursor stands on it. */
  lemma ErasedAgrees(s: Session, before: seq<Cell>, color: nat)
    requires Agrees(s, before, color) && s.line != ""
    ensures Agrees(s.Key('\U{8}'), before, color)
  {
    var line, p, p' := s.line, s.page, s.page.Put('\U{8}');
    assert p'.pos == p.pos - 1 && p'.cells == p.cells[p'.pos := Cell(' ', color)];
    assert p'.cells[..|before|] == p.cells[..|before|];
    assert p'.cells[|before|..p'.pos] == p.cells[|before|..p.pos][..|line| - 1];
    assert Colored(line[..|line| - 1], color) == Colored(line, color)[..|line| - 1];
    assert p'.cells[p'.pos..] == [Cell(' ', color)] + p.cells[p.pos..];
  }

  lemma KeyAgrees(s: Session, key: char, before: seq<Cell>, color: nat)
    requires Agrees(s, before, color) && EditingKey(key)
    ensures Agrees(s.Key(key), before, color)
  {
    hide Agrees, EditingKey, Page.Put;
    if key == '\U{8}' {
      if s.line != "" { ErasedAgrees(s, before, color); }
    } else if |s.line| < MAX_LINE - 1 {
      TypedAgrees(s, key, before, color);
    }
  }

  function AfterInputs(s: Session, inputs: seq<Input>): (s': Session)
    requires s.Valid()
    ensures s'.Valid()
    decreases |inputs|
  {
    if inputs == [] then s
    else AfterInputs(if inputs[0].Key? then s.Key(inputs[0].key) else s, inputs[1..])
  }

  /** The keys among the inputs. */
  function Keys(inputs: seq<Input>): string {
    if inputs == [] then ""
    else (if inputs[0].Key? then [inputs[0].key] else "") + Keys(inputs[1..])
  }

  predicate AllEditing(inputs: seq<Input>) {
    forall i :: 0 <= i < |inputs| && inputs[i].Key? ==> EditingKey(inputs[i].key)
  }

  function EditAll(line: string, keys: string): (line': string)
    requires |line| < MAX_LINE
    ensures |line'| < MAX_LINE
    decreases |keys|
  {
    if keys == "" then line else EditAll(Edit(line, keys[0]), keys[1..])
  }

  lemma {:induction false} InputsAgree(s: Session, inputs: seq<Input>, before: seq<Cell>, color: nat)
    requires Agrees(s, before, color) && AllEditing(inputs)
    ensures Agrees(AfterInputs(s, inputs), before, color)
    ensures AfterInputs(s, inputs).line == EditAll(s.line, Keys(inputs))
    decreases |inputs|
  {
    hide Edit, Echoed, EditingKey;
    if inputs != [] {
      if inputs[0].Key? {
        KeyAgrees(s, inputs[0].key, before, color);
        InputsAgree(s.Key(inputs[0].key), inputs[1..], before, color);
        assert Keys(inputs)[1..] == Keys(inputs[1..]);
      } else {
        InputsAgree(s, inputs[1..], before, color);
        assert Keys(inputs) == Keys(inputs[1..]);
      }
    }
  }

  /**
   * Starting at a prompt with nothing after the cursor, any stream of keys, with the status bar redrawn
   * anywhere in between, leaves on the page exactly the edited line; what stood before the prompt's end
   * is untouched.
   */
  lemma LineAndPageAgree(page: Page, inputs: seq<Input>)
    requires page.Valid() && AllSpaces(page.cells[page.pos..]) && AllEditing(inputs)
    ensures (var s := AfterInputs(Session("", page), inputs);
      && s.line == EditAll("", Keys(inputs))
      && s.page.pos == page.pos + |s.line|
      && s.page.cells[page.pos..s.page.pos] == Colored(s.line, page.color)
      && s.page.cells[..page.pos] == page.cells[..page.pos]
      && AllSpaces(s.page.cells[s.page.pos..]))
  {
    InputsAgree(Session("", page), inputs, page.cells[..page.pos], page.color);
  }

  /** One input on the text buffer. */
  function OnTheTerminal(screen: Screen, line: string, input: Input): (s: Screen)
    requires screen.Valid() && |line| < MAX_LINE
    ensures s.Valid()
  {
    match input
    case Key(key) => if Echoed(line, key) then screen.Put(key) else screen
    case Redraw(ticks) => OnTheScreen(screen, StatusBar(ticks))
  }

  function ScreenAfterInputs(screen: Screen, line: string, inputs: seq<Input>): (s: Screen)
    requires screen.Valid() && |line| < MAX_LINE
    ensures s.Valid()
    decreases |inputs|
  {
    if inputs == [] then screen
    else
      var line' := if inputs[0].Key? then Edit(line, inputs[0].key) else line;
      ScreenAfterInputs(OnTheTerminal(screen, line, inputs[0]), line', inputs[1..])
  }

  /** Row 0 after the redraws among the inputs. */
  function TopRowAfterInputs(row: seq<Cell>, inputs: seq<Input>): seq<Cell>
    decreases |inputs|
  {
    if inputs == [] then row
    else TopRowAfterInputs(if inputs[0].Redraw? then StatusRow(inputs[0].ticks) else row, inputs[1..])
  }

  lemma InputShows(screen: Screen, s: Session, input: Input)
    requires s.Valid() && Shows(screen, s.page)
    ensures (var screen' := OnTheTerminal(screen, s.line, input);
      && Shows(screen', if input.Key? then s.Key(input.key).page else s.page)
      && screen'.cells[..WIDTH] == if input.Redraw? then StatusRow(input.ticks) else screen.cells[..WIDTH])
  {
    hide Screen.Put, Page.Put, StatusRow;
    match input
    case Key(key) => PutShows(screen, s.page, key);
    case Redraw(ticks) => EventShows(screen, s.page, StatusBar(ticks));
  }

  /** On the screen: rows 1 to 24 go on showing the page of the session, and row 0 the latest status bar. */
  lemma {:induction false} InputsShow(screen: Screen, s: Session, inputs: seq<Input>)
    requires s.Valid() && Shows(screen, s.page)
    ensures Shows(ScreenAfterInputs(screen, s.line, inputs), AfterInputs(s, inputs).page)
    ensures ScreenAfterInputs(screen, s.line, inputs).cells[..WIDTH] == TopRowAfterInputs(screen.cells[..WIDTH], inputs)
    decreases |inputs|
  {
    hide Edit, Echoed, OnTheTerminal, StatusRow, Page.Put;
    if inputs != [] {
      InputShows(screen, s, inputs[0]);
      InputsShow(OnTheTerminal(screen, s.line, inputs[0]),
                 if inputs[0].Key? then s.Key(inputs[0].key) else s, inputs[1..]);
    }
  }

  /** Nothing moves the cursor back over text, so only spaces follow it. */
  lemma {:induction false} OnlySpacesFollow(p: Page, events: seq<Event>)
    requires p.Valid() && AllSpaces(p.cells[p.pos..])
    requires forall e <- events :: !e.SetCursor? && e != Char('\r')
    ensures AllSpaces(PageAfter(p, events).cells[PageAfter(p, events).pos..])
    decreases |events|
  {
    if events != [] {
      OnlySpacesFollow(OnThePage(p, events[0]), events[1..]);
    }
  }

  // ---- Typing and erasing ------------------------------------------------------

  lemma {:induction false} EditAllConcat(line: string, first: string, second: string)
    requires |line| < MAX_LINE
    ensures EditAll(line, first + second) == EditAll(EditAll(line, first), second)
    decreases |first|
  {
    hide Edit;
    if first == "" {
      assert first + second == second;
    } else {
      EditAllConcat(Edit(line, first[0]), first[1..], second);
      assert (first + second)[1..] == first[1..] + second;
    }
  }

  /** Text without backspaces is appended as far as 255 characters go; what exceeds them is ignored. */
  lemma {:induction false} TypingAppends(line: string, text: string)
    requires |line| < 256 && '\U{8}' !in text
    ensures EditAll(line, text) == if |line| + |text| <= 255 then line + text else (line + text)[..255]
    decreases |text|
  {
    if text != "" {
      var line' := Edit(line, text[0]);
      TypingAppends(line', text[1..]);
      assert line + [text[0]] + text[1..] == line + text;
      assert |line| == 255 ==> (line + text)[..255] == line == (line' + text[1..])[..255];
    }
  }

  function Backspaces(n: nat): string { seq(n, _ => '\U{8}') }

  lemma {:induction false} BackspacesErase(line: string, n: nat)
    requires |line| < MAX_LINE && n <= |line|
    ensures EditAll(line, Backspaces(n)) == line[..|line| - n]
    decreases n
  {
    if n > 0 {
      assert Backspaces(n)[1..] == Backspaces(n - 1);
      BackspacesErase(line[..|line| - 1], n - 1);
    }
  }

  /** As many backspaces as characters typed bring the line back. */
  lemma ErasingUndoesTyping(line: string, text: string)
    requires |line| + |text| < MAX_LINE && '\U{8}' !in text
    ensures EditAll(line, text + Backspaces(|text|)) == line
  {
    EditAllConcat(line, text, Backspaces(|text|));
    TypingAppends(line, text);
    BackspacesErase(line + text, |text|);
  }
}
