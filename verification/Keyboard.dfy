/**
 * src/keyboard.c: scancode translation with shift state, and the 256-byte ring
 * filled by the interrupt handler and emptied by keyboard_getchar.  The ring is
 * a FIFO that holds at most 255 characters, also when handler runs fall between
 * the instructions of the reader.
 */
module Keyboard {
  import opened Options

  const SIZE := 256

  // ---- Scancode tables ---------------------------------------------------

  /** Scancodes without a character. */
  function Unmapped(n: nat): string { seq(n, _ => '\0') }

  const KEYPAD := "789-456+1230."

  /** Scancodes 0x00 to 0x7F: four rows of keys, F1-F10 and the locks, the keypad, the rest. */
  function Table(digits: string, top: string, home: string, bottom: string): string {
    digits + top + home + bottom + Unmapped(12) + KEYPAD + Unmapped(44)
  }

  const DIGITS := "\0\01234567890-=\U{8}\t"
  const TOP := "qwertyuiop[]\n\0"
  const HOME := "asdfghjkl;'`\0\\"
  const BOTTOM := "zxcvbnm,./\0*\0 \0"

  const SHIFTED_DIGITS := "\0\0!@#$%^&*()_+\U{8}\t"
  const SHIFTED_TOP := "QWERTYUIOP{}\n\0"
  const SHIFTED_HOME := "ASDFGHJKL:\"~\0|"
  const SHIFTED_BOTTOM := "ZXCVBNM<>?\0*\0 \0"

  const NORMAL := Table(DIGITS, TOP, HOME, BOTTOM)

  const SHIFTED := Table(SHIFTED_DIGITS, SHIFTED_TOP, SHIFTED_HOME, SHIFTED_BOTTOM)

  /** What the rest of the system may assume of a typed character. */
  predicate Typable(c: char) {
    c == '\n' || c == '\t' || c == '\U{8}' || ' ' <= c <= '~'
  }

  predicate AllTypable(s: string) {
    forall i :: 0 <= i < |s| ==> s[i] == '\0' || Typable(s[i])
  }

  lemma RowsMakeATable(digits: string, top: string, home: string, bottom: string)
    requires |digits| == 16 && |top| == 14 && |home| == 14 && |bottom| == 15
    requires AllTypable(digits) && AllTypable(top) && AllTypable(home) && AllTypable(bottom)
    ensures |Table(digits, top, home, bottom)| == 128 && AllTypable(Table(digits, top, home, bottom))
  {
    assert AllTypable(KEYPAD);
    assert AllTypable(digits + top + home);
    assert AllTypable(digits + top + home + bottom + Unmapped(12));
  }

  /** Both tables have 128 entries; an entry is 0 or a typable character, never a carriage return. */
  lemma TablesAreTypable()
    ensures |NORMAL| == 128 && |SHIFTED| == 128
    ensures AllTypable(NORMAL) && AllTypable(SHIFTED)
  {
    RowsMakeATable(DIGITS, TOP, HOME, BOTTOM);
    RowsMakeATable(SHIFTED_DIGITS, SHIFTED_TOP, SHIFTED_HOME, SHIFTED_BOTTOM);
  }

  // ---- One handler run, on values ----------------------------------------

  type Scancode = s: nat | s < 256

  predicate PressesShift(s: Scancode) { s == 0x2A || s == 0x36 }

  predicate ReleasesShift(s: Scancode) { s == 0xAA || s == 0xB6 }

  /** The character a scancode types, or 0: shift keys, break codes and unmapped keys type none. */
  function Typed(s: Scancode, shift: bool): (c: char)
    ensures c == '\0' || Typable(c)
  {
    TablesAreTypable();
    if PressesShift(s) || ReleasesShift(s) || s >= 0x80 then '\0'
    else if shift then SHIFTED[s]
    else NORMAL[s]
  }

  /** A table read row by row. */
  lemma TableAt(digits: string, top: string, home: string, bottom: string, s: nat)
    requires |digits| == 16 && |top| == 14 && |home| == 14 && |bottom| == 15 && s < 0x80
    ensures |Table(digits, top, home, bottom)| == 128
    ensures Table(digits, top, home, bottom)[s] ==
              if s < 0x10 then digits[s]
              else if s < 0x1E then top[s - 0x10]
              else if s < 0x2C then home[s - 0x1E]
              else if s < 0x3B then bottom[s - 0x2C]
              else if s < 0x47 then '\0'
              else if s < 0x54 then KEYPAD[s - 0x47]
              else '\0'
  {
  }

  /** Escape, Ctrl, Shift, Alt, Caps Lock, the function keys, the other locks, and codes without a key. */
  predicate TypesNothing(s: Scancode) {
    s <= 1 || s == 0x1D || s == 0x2A || s == 0x36 || s == 0x38 || 0x3A <= s <= 0x46 || s >= 0x54
  }

  function Capital(c: char): char
    requires 'a' <= c <= 'z'
  {
    'A' + (c - 'a')
  }

  /** One row of keys under both shift states: the same ones type nothing, and letters become capitals. */
  predicate ShiftRow(row: string, shifted: string, blanks: set<nat>) {
    && |row| == |shifted|
    && forall i: nat :: i < |row| ==>
         && (row[i] == '\0' <==> i in blanks) && (shifted[i] == '\0' <==> i in blanks)
         && ('a' <= row[i] <= 'z' ==> shifted[i] == Capital(row[i]))
  }

  lemma DigitsShift()
    ensures ShiftRow(DIGITS, SHIFTED_DIGITS, {0, 1}) && |DIGITS| == 16
  {
  }

  lemma TopShifts()
    ensures ShiftRow(TOP, SHIFTED_TOP, {13}) && |TOP| == 14
  {
  }

  lemma HomeShifts()
    ensures ShiftRow(HOME, SHIFTED_HOME, {12}) && |HOME| == 14
  {
  }

  lemma BottomShifts()
    ensures ShiftRow(BOTTOM, SHIFTED_BOTTOM, {10, 12, 14}) && |BOTTOM| == 15
  {
  }

  lemma RowsShift()
    ensures ShiftRow(DIGITS, SHIFTED_DIGITS, {0, 1}) && ShiftRow(TOP, SHIFTED_TOP, {13})
    ensures ShiftRow(HOME, SHIFTED_HOME, {12}) && ShiftRow(BOTTOM, SHIFTED_BOTTOM, {10, 12, 14})
    ensures |DIGITS| == 16 && |TOP| == 14 && |HOME| == 14 && |BOTTOM| == 15
  {
    hide ShiftRow;
    DigitsShift();
    TopShifts();
    HomeShifts();
    BottomShifts();
  }

  /** The same keys type something with and without shift, and shift makes letters capitals. */
  lemma ShiftChangesTheCharacterOnly(s: Scancode)
    ensures Typed(s, false) == '\0' <==> TypesNothing(s)
    ensures Typed(s, true) == '\0' <==> TypesNothing(s)
    ensures 'a' <= Typed(s, false) <= 'z' ==> Typed(s, true) == Capital(Typed(s, false))
  {
    hide Table;
    RowsShift();
    if s < 0x80 {
      TableAt(DIGITS, TOP, HOME, BOTTOM, s);
      TableAt(SHIFTED_DIGITS, SHIFTED_TOP, SHIFTED_HOME, SHIFTED_BOTTOM, s);
    }
  }

  /** Some key, with or without shift, types each of these characters. */
  ghost predicate HasAKey(c: char) {
    exists s: Scancode, shift: bool :: Typed(s, shift) == c
  }

  lemma RowHasKeys(digits: string, top: string, home: string, bottom: string, shift: bool, c: char)
    requires Table(digits, top, home, bottom) == if shift then SHIFTED else NORMAL
    requires |digits| == 16 && |top| == 14 && |home| == 14 && |bottom| == 15
    requires c != '\0' && c in digits + top + home + bottom
    ensures HasAKey(c)
  {
    hide Table, TypesNothing;
    var all := digits + top + home + bottom;
    var s: nat :| s < |all| && all[s] == c;
    TableAt(digits, top, home, bottom, s);
    ShiftChangesTheCharacterOnly(s);
    TypedIsTheEntry(s, shift);
    assert Typed(s, shift) == c;
  }

  lemma TypedIsTheEntry(s: Scancode, shift: bool)
    requires s < 0x80
    ensures |NORMAL| == 128 && |SHIFTED| == 128
    ensures Typed(s, shift) == if shift then SHIFTED[s] else NORMAL[s]
  {
    hide Table;
    RowsShift();
    TablesAreTypable();
    TableAt(DIGITS, TOP, HOME, BOTTOM, s);
    TableAt(SHIFTED_DIGITS, SHIFTED_TOP, SHIFTED_HOME, SHIFTED_BOTTOM, s);
  }

  lemma CharactersAreOnRows(c: char)
    requires Typable(c)
    ensures c in DIGITS || c in TOP || c in HOME || c in BOTTOM
         || c in SHIFTED_DIGITS || c in SHIFTED_TOP || c in SHIFTED_HOME || c in SHIFTED_BOTTOM
  {
  }

  /** Every printable ASCII character, and newline, tab and backspace, can be typed. */
  lemma EveryCharacterHasAKey(c: char)
    requires Typable(c)
    ensures HasAKey(c)
  {
    hide Table, HasAKey, Typable;
    RowsShift();
    CharactersAreOnRows(c);
    assert c != '\0' by { NulIsNotTypable(); }
    if c in DIGITS + TOP + HOME + BOTTOM {
      RowHasKeys(DIGITS, TOP, HOME, BOTTOM, false, c);
    } else {
      RowHasKeys(SHIFTED_DIGITS, SHIFTED_TOP, SHIFTED_HOME, SHIFTED_BOTTOM, true, c);
    }
  }

  lemma NulIsNotTypable()
    ensures !Typable('\0')
  {
  }

  function ShiftAfter(s: Scancode, shift: bool): bool {
    if PressesShift(s) then true else if ReleasesShift(s) then false else shift
  }

  // ---- The ring, on values -----------------------------------------------

  /** The index after `i`, as the 8-bit arithmetic computes it. */
  function Successor(i: nat): (j: nat)
    requires i < SIZE
    ensures j == if i == SIZE - 1 then 0 else i + 1
  {
    (i + 1) % SIZE
  }

  datatype Ring = Ring(buffer: string, head: nat, tail: nat) {
    predicate Valid() { |buffer| == SIZE && head < SIZE && tail < SIZE }

    /** The characters waiting, oldest first. */
    function Held(): (held: string)
      requires Valid()
      ensures |held| == head - tail + if tail <= head then 0 else SIZE
    {
      if tail <= head then buffer[tail..head] else buffer[tail..] + buffer[..head]
    }

    /** The next head would meet the tail. */
    predicate Full()
      requires Valid()
    {
      Successor(head) == tail
    }

    /** The handler's push: nothing happens to a full ring. */
    function Push(c: char): (r: Ring)
      requires Valid()
      ensures r.Valid()
    {
      if Full() then this else Ring(buffer[head := c], Successor(head), tail)
    }

    /** The reader's store: the oldest character leaves. */
    function Advance(): (r: Ring)
      requires Valid()
      ensures r.Valid()
    {
      this.(tail := Successor(tail))
    }
  }

  /** Push appends to what is held; it is refused exactly when 255 are held. */
  lemma PushAppends(r: Ring, c: char)
    requires r.Valid()
    ensures |r.Held()| <= 255 && (r.Full() <==> |r.Held()| == 255)
    ensures r.Push(c).Held() == if |r.Held()| < 255 then r.Held() + [c] else r.Held()
    ensures |r.Held()| == 255 ==> r.Push(c) == r
  {
    hide Successor;
  }

  lemma EmptyWhenHeadMeetsTail(r: Ring)
    requires r.Valid()
    ensures r.head == r.tail <==> r.Held() == []
  {
  }

  lemma AdvanceRemovesFirst(r: Ring)
    requires r.Valid() && r.head != r.tail
    ensures r.Held() == [r.buffer[r.tail]] + r.Advance().Held()
    ensures r.Held()[0] == r.buffer[r.tail]
  {
    hide Successor;
    var b, t, h := r.buffer, r.tail, r.head;
    if t < h {
      FirstOfSlice(b, t, h);
    } else if t < SIZE - 1 {
      FirstOfWrapped(b, t, h);
    } else {
      assert r.Held() == b[t..] + b[..h] && b[t..] == [b[t]];
      assert r.Advance().Held() == b[0..h] == b[..h];
    }
  }

  lemma FirstOfSlice(b: string, lo: nat, hi: nat)
    requires lo < hi <= |b|
    ensures b[lo..hi] == [b[lo]] + b[lo + 1..hi]
  {
  }

  lemma FirstOfWrapped(b: string, lo: nat, hi: nat)
    requires lo < |b| && hi <= |b|
    ensures b[lo..] + b[..hi] == [b[lo]] + (b[lo + 1..] + b[..hi])
  {
    assert b[lo..] == [b[lo]] + b[lo + 1..];
  }

  // ---- The driver's static state ------------------------------------------

  class Driver {
    const buffer: array<char>
    var head: nat
    var tail: nat
    var shift: bool

    ghost predicate Valid() reads this {
      buffer.Length == SIZE && head < SIZE && tail < SIZE
    }

    ghost function View(): (r: Ring)
      requires Valid()
      reads this, buffer
      ensures r.Valid()
    {
      Ring(buffer[..], head, tail)
    }

    /** keyboard_init. */
    constructor ()
      ensures Valid() && fresh(buffer) && !shift && View().Held() == []
    {
      buffer := new char[SIZE](_ => '\0');
      head, tail, shift := 0, 0, false;
    }

    method KeyboardHandler(scancode: Scancode)
      requires Valid()
      modifies this`head, this`shift, buffer
      ensures Valid() && tail == old(tail) && shift == ShiftAfter(scancode, old(shift))
      ensures scancode in {0x2A, 0x36} ==> shift
      ensures scancode in {0xAA, 0xB6} ==> !shift
      ensures scancode !in {0x2A, 0x36, 0xAA, 0xB6} ==> shift == old(shift)
      ensures (var c := Typed(scancode, old(shift));
               View() == if c == '\0' then old(View()) else old(View()).Push(c))
    {
      if scancode == 0x2A || scancode == 0x36 {
        shift := true;
        return;
      }
      if scancode == 0xAA || scancode == 0xB6 {
        shift := false;
        return;
      }
      if scancode >= 0x80 { return; }
      TablesAreTypable();
      var c := if shift then SHIFTED[scancode] else NORMAL[scancode];
      if c == '\0' { return; }
      var nextHead := Successor(head);
      if nextHead != tail {
        buffer[head] := c;
        head := nextHead;
      }
    }

    method KeyboardGetchar() returns (c: char)
      requires Valid()
      modifies this`tail
      ensures Valid()
      ensures if old(View().Held()) == [] then c == '\0' && View() == old(View())
              else old(View().Held()) == [c] + View().Held() && View() == old(View()).Advance()
    {
      hide Ring.Held;
      EmptyWhenHeadMeetsTail(View());
      if head == tail { return '\0'; }
      AdvanceRemovesFirst(View());
      c := buffer[tail];
      tail := Successor(tail);
    }
  }

  // ---- Handler runs between the reader's steps ------------------------------

  /** Where keyboard_getchar stands: about to compare, about to load, about to store the tail. */
  datatype Reader = Compare | Load | Store(c: char)

  /**
   * The keyboard with a reader that calls keyboard_getchar over and over.
   * `accepted` is every character pushed so far, `answers` every value returned.
   */
  datatype System = System(ring: Ring, shift: bool, reader: Reader, accepted: string, answers: string)

  datatype Action = Key(scancode: Scancode) | Read

  function Act(m: System, a: Action): (m': System)
    requires m.ring.Valid()
    ensures m'.ring.Valid()
  {
    match a
    case Key(s) =>
      var c := Typed(s, m.shift);
      var m1 := m.(shift := ShiftAfter(s, m.shift));
      if c == '\0' || m.ring.Full() then m1
      else m1.(ring := m.ring.Push(c), accepted := m.accepted + [c])
    case Read =>
      match m.reader
      case Compare =>
        if m.ring.head == m.ring.tail then m.(answers := m.answers + ['\0']) else m.(reader := Load)
      case Load => m.(reader := Store(m.ring.buffer[m.ring.tail]))
      case Store(c) => m.(ring := m.ring.Advance(), reader := Compare, answers := m.answers + [c])
  }

  function Start(): System {
    System(Ring(Unmapped(SIZE), 0, 0), false, Compare, "", "")
  }

  /** The characters among the answers; 0 stands for "empty". */
  function Delivered(answers: string): string {
    if answers == "" then ""
    else Delivered(answers[..|answers| - 1]) + if answers[|answers| - 1] == '\0' then "" else [answers[|answers| - 1]]
  }

  /** Everything accepted is either delivered or still held, in order; a loaded character is the oldest one held. */
  ghost predicate Fifo(m: System) {
    && m.ring.Valid()
    && m.accepted == Delivered(m.answers) + m.ring.Held()
    && '\0' !in m.accepted
    && (m.reader != Compare ==> m.ring.Held() != [])
    && (m.reader.Store? ==> m.ring.Held()[0] == m.reader.c)
  }

  /** A handler run appends the typed character, if any, unless 255 are held. */
  lemma KeyIsEnqueue(m: System, s: Scancode)
    requires Fifo(m)
    ensures (var m', c := Act(m, Key(s)), Typed(s, m.shift);
      && Fifo(m') && m'.answers == m.answers
      && if c != '\0' && |m.ring.Held()| < 255
         then m'.ring.Held() == m.ring.Held() + [c] && m'.accepted == m.accepted + [c]
         else m'.ring == m.ring && m'.accepted == m.accepted)
  {
    hide Ring.Held, Typed, ShiftAfter, Ring.Full, Ring.Push, Delivered;
    PushAppends(m.ring, Typed(s, m.shift));
  }

  lemma DeliveredAppend(answers: string, c: char)
    ensures Delivered(answers + [c]) == Delivered(answers) + if c == '\0' then "" else [c]
  {
    assert (answers + [c])[..|answers|] == answers;
  }

  /** A reader step answers nothing, or answers 0 and nothing is held, or removes and answers the oldest character. */
  lemma ReadIsDequeue(m: System)
    requires Fifo(m)
    ensures (var m', held := Act(m, Read), m.ring.Held();
      && Fifo(m') && m'.accepted == m.accepted
      && ((m'.answers == m.answers && m'.ring == m.ring)
          || (m'.answers == m.answers + ['\0'] && m'.ring == m.ring && held == [])
          || (held != [] && m'.answers == m.answers + [held[0]] && m'.ring.Held() == held[1..])))
  {
    hide Ring.Held, Ring.Advance, Delivered;
    EmptyWhenHeadMeetsTail(m.ring);
    match m.reader
    case Compare => DeliveredAppend(m.answers, '\0');
    case Load => AdvanceRemovesFirst(m.ring);
    case Store(c) =>
      AdvanceRemovesFirst(m.ring);
      assert c == m.accepted[|Delivered(m.answers)|];
      DeliveredAppend(m.answers, c);
  }

  ghost function Exec(m: System, actions: seq<Action>): (m': System)
    requires m.ring.Valid()
    ensures m'.ring.Valid()
    decreases |actions|
  {
    if actions == [] then m else Exec(Act(m, actions[0]), actions[1..])
  }

  lemma {:induction false} RunIsFifo(m: System, actions: seq<Action>)
    requires Fifo(m)
    ensures Fifo(Exec(m, actions)) && m.accepted <= Exec(m, actions).accepted
    decreases |actions|
  {
    hide Delivered, Ring.Held, Typed;
    if actions != [] {
      match actions[0] {
        case Key(s) => KeyIsEnqueue(m, s);
        case Read => ReadIsDequeue(m);
      }
      RunIsFifo(Act(m, actions[0]), actions[1..]);
    }
  }

  /**
   * In every run, with handler runs anywhere between the reader's steps: what has been delivered
   * is a prefix of what was accepted, in order, none lost or repeated, and at most 255 are held.
   */
  lemma DeliversInOrder(actions: seq<Action>)
    ensures (var m := Exec(Start(), actions);
      && m.ring.Valid()
      && Delivered(m.answers) <= m.accepted
      && m.ring.Held() == m.accepted[|Delivered(m.answers)|..]
      && |m.ring.Held()| <= 255)
  {
    RunIsFifo(Start(), actions);
    PushAppends(Exec(Start(), actions).ring, 'x');
  }

  /** What the keys of a run type, whatever the ring does. */
  function TypedBy(shift: bool, actions: seq<Action>): string
    decreases |actions|
  {
    if actions == [] then ""
    else
      match actions[0]
      case Read => TypedBy(shift, actions[1..])
      case Key(s) =>
        var c := Typed(s, shift);
        (if c == '\0' then "" else [c]) + TypedBy(ShiftAfter(s, shift), actions[1..])
  }

  /** No key of the run arrives while 255 characters are held. */
  ghost predicate NeverFull(m: System, actions: seq<Action>)
    requires m.ring.Valid()
    decreases |actions|
  {
    actions != [] ==>
      && (actions[0].Key? ==> |m.ring.Held()| < 255)
      && NeverFull(Act(m, actions[0]), actions[1..])
  }

  /** Then every mapped key is accepted: only a ring holding 255 drops any. */
  lemma {:induction false} OnlyAFullRingDrops(m: System, actions: seq<Action>)
    requires Fifo(m) && NeverFull(m, actions)
    ensures Exec(m, actions).accepted == m.accepted + TypedBy(m.shift, actions)
    decreases |actions|
  {
    hide Delivered, Ring.Held, Typed, ShiftAfter;
    if actions != [] {
      match actions[0] {
        case Key(s) => KeyIsEnqueue(m, s);
        case Read => ReadIsDequeue(m);
      }
      OnlyAFullRingDrops(Act(m, actions[0]), actions[1..]);
    }
  }

  // ---- Shift over runs -----------------------------------------------------

  /** The latest scancode of a run that concerns a shift key: a press is 0x2A or 0x36, a release 0xAA or 0xB6. */
  function LatestShiftCode(actions: seq<Action>): Option<Scancode> {
    if actions == [] then None
    else
      var a := actions[|actions| - 1];
      if a.Key? && a.scancode in {0x2A, 0x36, 0xAA, 0xB6} then Some(a.scancode)
      else LatestShiftCode(actions[..|actions| - 1])
  }

  lemma {:induction false} ExecAppend(m: System, actions: seq<Action>, a: Action)
    requires m.ring.Valid()
    ensures Exec(m, actions + [a]) == Act(Exec(m, actions), a)
    decreases |actions|
  {
    hide Act;
    if actions == [] {
      assert (actions + [a])[1..] == [];
    } else {
      ExecAppend(Act(m, actions[0]), actions[1..], a);
      assert (actions + [a])[1..] == actions[1..] + [a];
    }
  }

  /** After any run shift is held exactly when the latest such code is a press; without one it is as it was. */
  lemma {:induction false} ShiftIsTheLatestCode(m: System, actions: seq<Action>)
    requires m.ring.Valid()
    ensures Exec(m, actions).shift ==
              match LatestShiftCode(actions)
              case None => m.shift
              case Some(code) => code == 0x2A || code == 0x36
  {
    hide Typed, Ring.Full, Ring.Push, Ring.Advance;
    if actions != [] {
      var front, a := actions[..|actions| - 1], actions[|actions| - 1];
      assert actions == front + [a];
      ShiftIsTheLatestCode(m, front);
      ExecAppend(m, front, a);
    }
  }

  /**
   * A letter key pressed after any run, with room in the ring, is accepted as the capital when the latest
   * shift code is a press, and as the small letter when it is a release or there has been none.
   */
  lemma LettersFollowTheShiftKeys(actions: seq<Action>, s: Scancode)
    requires s < |NORMAL| && 'a' <= NORMAL[s] <= 'z'
    requires |Exec(Start(), actions).ring.Held()| < 255
    ensures (var code := LatestShiftCode(actions);
             var c := if code == Some(0x2A) || code == Some(0x36) then Capital(NORMAL[s]) else NORMAL[s];
             Exec(Start(), actions + [Key(s)]).accepted == Exec(Start(), actions).accepted + [c])
  {
    hide Typed, Act, Ring.Held, Table, Exec, LatestShiftCode;
    var m := Exec(Start(), actions);
    RunIsFifo(Start(), actions);
    ShiftIsTheLatestCode(Start(), actions);
    ExecAppend(Start(), actions, Key(s));
    KeyIsEnqueue(m, s);
    TablesAreTypable();
    TypedIsTheEntry(s, false);
    ShiftChangesTheCharacterOnly(s);
  }
}
