/**
 * src/shell.c as code: the line editor's loop body, the in-place tokenizer, the
 * command lookup and the decimal conversions, over C strings in arrays.
 */
module Shell {
  import opened Machine32
  import opened Options
  import opened Tokens
  import opened Decimal
  import opened Console
  import opened LineEditor
  import opened Vga
  import KS = KernelState
  import KernelInvariant
  import KernelRuns
  import Scheduler

  const MAX_ARGS := 16

  // ---- shell_parse -------------------------------------------------------------

  /** `a` holds the NUL-terminated `text` at its start. */
  ghost predicate Holds(a: seq<char>, text: string) {
    '\0' !in text && |text| < |a| && a[..|text|] == text && a[|text|] == '\0'
  }

  /** The C string at offset `i` of `a` is `w`. */
  ghost predicate StringAt(a: seq<char>, i: nat, w: string) {
    i + |w| < |a| && a[i..i + |w|] == w && '\0' !in w && a[i + |w|] == '\0'
  }

  /** From `p` on the line has not been written: it is still `text`, with its terminator. */
  ghost predicate RestIs(a: seq<char>, p: nat, text: string) {
    p <= |text| < |a| && '\0' !in text && a[p..|text|] == text[p..] && a[|text|] == '\0'
  }

  method SkipSpaces(line: array<char>, from: nat, ghost text: string) returns (p: nat)
    requires RestIs(line[..], from, text)
    ensures RestIs(line[..], p, text) && from <= p && line[p] != ' '
    ensures Words(text[p..]) == Words(text[from..])
  {
    p := from;
    while line[p] == ' '
      invariant from <= p && RestIs(line[..], p, text)
      invariant Words(text[p..]) == Words(text[from..])
      decreases |text| - p
    {
      assert text[p..][0] == line[..][p..|text|][0] == ' ' && text[p..][1..] == text[p + 1..];
      assert line[..][p + 1..|text|] == line[..][p..|text|][1..];
      p := p + 1;
    }
  }

  method SkipWord(line: array<char>, from: nat, ghost text: string) returns (p: nat)
    requires RestIs(line[..], from, text)
    ensures RestIs(line[..], p, text) && p == from + WordLength(text[from..])
  {
    p := from;
    while line[p] != '\0' && line[p] != ' '
      invariant from <= p && RestIs(line[..], p, text)
      invariant from + WordLength(text[from..]) == p + WordLength(text[p..])
      decreases |text| - p
    {
      assert text[p..][0] == line[..][p..|text|][0] && text[p..][1..] == text[p + 1..];
      assert line[..][p + 1..|text|] == line[..][p..|text|][1..];
      p := p + 1;
    }
    assert p < |text| ==> text[p..][0] == line[..][p..|text|][0];
  }

  /**
   * The loop has got to `p` with `argc` words recorded at `offsets`: they are the first words of the
   * text, each already terminated, and the rest of the words are those from `p` on.
   */
  ghost predicate Parsed(a: seq<char>, offsets: seq<nat>, argc: nat, p: nat, text: string) {
    && RestIs(a, p, text) && argc <= |offsets| && argc <= |Words(text)|
    && Words(text)[argc..] == Words(text[p..])
    && forall k :: 0 <= k < argc ==>
         StringAt(a, offsets[k], Words(text)[k]) && (offsets[k] + |Words(text)[k]| < p || p == |text|)
  }

  /** Where the loop stands after the word at `p`, with its NUL written. */
  function AfterWord(a: seq<char>, p: nat, text: string): (r: (seq<char>, nat))
    requires p <= |text| < |a|
  {
    var q := p + WordLength(text[p..]);
    if q < |text| then (a[q := '\0'], q + 1) else (a, q)
  }

  lemma WordsAfterWord(p: nat, text: string)
    requires p < |text| && text[p] != ' '
    ensures (var q := p + WordLength(text[p..]);
             Words(text[p..]) == [text[p..q]] + Words(text[if q < |text| then q + 1 else q..]))
  {
    var q := p + WordLength(text[p..]);
    assert text[p..][..q - p] == text[p..q] && text[p..][q - p..] == text[q..];
    assert Words(text[p..]) == [text[p..q]] + Words(text[q..]);
    if q < |text| {
      assert text[q..][0] == ' ' && text[q..][1..] == text[q + 1..];
    }
  }

  /** The word at `p` becomes a C string and the earlier ones stay what they were. */
  lemma WordTaken(a: seq<char>, offsets: seq<nat>, argc: nat, p: nat, text: string)
    requires Parsed(a, offsets, argc, p, text) && p < |text| && text[p] != ' ' && argc < |offsets|
    ensures (var (a', p') := AfterWord(a, p, text);
             Parsed(a', offsets[argc := p], argc + 1, p', text))
  {
    hide Words;
    var q := p + WordLength(text[p..]);
    var (a', p') := AfterWord(a, p, text);
    WordsAfterWord(p, text);
    assert Words(text)[argc] == Words(text)[argc..][0] == text[p..q];
    assert Words(text)[argc + 1..] == Words(text)[argc..][1..];
    assert a'[p..q] == a[p..|text|][..q - p] == text[p..q];
    assert p' < |text| ==> a'[p'..|text|] == a[p..|text|][p' - p..] == text[p'..];
    assert a'[|text|] == '\0';
    forall k | 0 <= k < argc
      ensures StringAt(a', offsets[k], Words(text)[k])
    {
      assert StringAt(a, offsets[k], Words(text)[k]);
      assert a'[offsets[k]..offsets[k] + |Words(text)[k]|] == a[offsets[k]..offsets[k] + |Words(text)[k]|];
    }
  }

  /** Nothing but spaces has been overwritten, and only with terminators. */
  ghost predicate OnlyTerminated(a: seq<char>, a': seq<char>) {
    |a| == |a'| && forall i :: 0 <= i < |a| ==> a'[i] == a[i] || (a[i] == ' ' && a'[i] == '\0')
  }

  /** One round of the loop: the word at `p`. */
  method TakeWord(line: array<char>, argv: array<nat>, argc: nat, p: nat, ghost text: string) returns (p': nat)
    requires Parsed(line[..], argv[..], argc, p, text) && argc < argv.Length && p < |text| && line[p] != ' '
    modifies line, argv
    ensures Parsed(line[..], argv[..], argc + 1, p', text) && p < p'
    ensures OnlyTerminated(old(line[..]), line[..])
  {
    hide Words, StringAt;
    ghost var a, offsets := line[..], argv[..];
    assert text[p] == text[p..][0] == a[p..|text|][0];
    WordTaken(a, offsets, argc, p, text);
    argv[argc] := p;
    p' := SkipWord(line, p, text);
    if line[p'] != '\0' {
      line[p'] := '\0';
      p' := p' + 1;
    }
    assert line[..] == AfterWord(a, p, text).0 && argv[..] == offsets[argc := p];
  }

  /**
   * shell_parse up to its call of shell_dispatch: `argv` receives the offsets of the first 16 words,
   * and every space that ends a word becomes its terminator.
   */
  method Parse(line: array<char>, argv: array<nat>, ghost text: string) returns (argc: nat)
    requires Holds(line[..], text) && argv.Length == MAX_ARGS
    modifies line, argv
    ensures argc == if |Words(text)| < 16 then |Words(text)| else 16
    ensures forall k :: 0 <= k < argc ==> StringAt(line[..], argv[k], Words(text)[k])
    ensures OnlyTerminated(old(line[..]), line[..])
  {
    hide StringAt;
    argc := 0;
    assert text[0..] == text && line[..][0..|text|] == text;
    var p := SkipSpaces(line, 0, text);
    if line[p] == '\0' { return; }
    while line[p] != '\0' && argc < MAX_ARGS
      invariant argc <= MAX_ARGS && Parsed(line[..], argv[..], argc, p, text)
      invariant OnlyTerminated(old(line[..]), line[..])
      decreases |text| - p
    {
      p := SkipSpaces(line, p, text);
      if line[p] == '\0' { break; }
      p := TakeWord(line, argv, argc, p, text);
      argc := argc + 1;
    }
  }

  // ---- sh_strcmp and shell_dispatch ------------------------------------------------

  /** Dictionary order on characters. */
  predicate Before(s: string, t: string) {
    t != "" && (s == "" || s[0] < t[0] || (s[0] == t[0] && Before(s[1..], t[1..])))
  }

  function CharAt(s: string, k: nat): char { if k < |s| then s[k] else '\0' }

  lemma CharOfString(a: seq<char>, i: nat, s: string, k: nat)
    requires StringAt(a, i, s) && k <= |s|
    ensures a[i + k] == CharAt(s, k)
  {
    assert k < |s| ==> a[i..i + |s|][k] == s[k];
  }

  lemma BeforeAtFirstDifference(s: string, t: string, k: nat)
    requires k <= |s| && k <= |t| && s[..k] == t[..k] && '\0' !in s && '\0' !in t
    requires CharAt(s, k) == '\0' || CharAt(t, k) == '\0' || CharAt(s, k) != CharAt(t, k)
    ensures CharAt(s, k) == CharAt(t, k) <==> s == t
    ensures CharAt(s, k) < CharAt(t, k) <==> Before(s, t)
    decreases k
  {
    if k > 0 {
      assert s[0] == s[..k][0] == t[..k][0] == t[0];
      assert s[1..][..k - 1] == s[..k][1..] == t[1..][..k - 1];
      BeforeAtFirstDifference(s[1..], t[1..], k - 1);
      assert s == [s[0]] + s[1..] && t == [t[0]] + t[1..];
    } else {
      assert s != "" ==> s[0] != '\0' && s[0] in s;
      assert t != "" ==> t[0] != '\0' && t[0] in t;
    }
  }

  /** sh_strcmp of the C string at offset `i` of `a` with `t`: 0 exactly for equal strings. */
  method StrCmp(a: array<char>, i: nat, t: string, ghost s: string) returns (r: int)
    requires StringAt(a[..], i, s) && '\0' !in t
    ensures r == 0 <==> s == t
    ensures r < 0 <==> Before(s, t)
  {
    var k: nat := 0;
    while a[i + k] != '\0' && CharAt(t, k) != '\0' && a[i + k] == CharAt(t, k)
      invariant k <= |s| && k <= |t| && s[..k] == t[..k]
      decreases |t| - k
    {
      CharOfString(a[..], i, s, k);
      k := k + 1;
    }
    CharOfString(a[..], i, s, k);
    BeforeAtFirstDifference(s, t, k);
    r := a[i + k] as int - CharAt(t, k) as int;
  }

  const COMMANDS := ["help", "clear", "echo", "ls", "time", "ps", "threads", "meminfo",
                     "newprocess", "killprocess", "reboot", "exit", "about", "banner"]

  /** shell_dispatch's search of the table: the entry named like argv[0], if there is one. */
  method FindCommand(a: array<char>, i: nat, ghost s: string) returns (k: Option<nat>)
    requires StringAt(a[..], i, s)
    ensures k.Some? ==> k.value < |COMMANDS| && COMMANDS[k.value] == s
    ensures k.None? <==> s !in COMMANDS
  {
    var j := 0;
    while j < |COMMANDS|
      invariant 0 <= j <= |COMMANDS| && s !in COMMANDS[..j]
    {
      assert '\0' !in COMMANDS[j];
      var r := StrCmp(a, i, COMMANDS[j], s);
      if r == 0 { return Some(j); }
      j := j + 1;
    }
    return None;
  }

  // ---- sh_itoa and the argument of killprocess -----------------------------------------

  /** sh_itoa, within the 12 bytes its callers provide. */
  method Itoa(n: nat, buf: array<char>)
    requires n < WORD && buf.Length == 12
    modifies buf
    ensures StringAt(buf[..], 0, Digits(n))
  {
    if n == 0 {
      buf[0], buf[1] := '0', '\0';
      assert Digits(0) == ['0'];
      return;
    }
    DigitsFit(n);
    var tmp := new char[12];
    var i := Collect(n, tmp);
    var j := TurnRound(tmp, i, buf, 0, Digits(n));
    assert buf[..j] == Digits(n);
    buf[j] := '\0';
  }

  /** The digits a text starts with. */
  function LeadingDigits(s: string): (d: string)
    ensures d <= s && forall i :: 0 <= i < |d| ==> IsDigit(d[i])
  {
    if s == "" || !IsDigit(s[0]) then "" else [s[0]] + LeadingDigits(s[1..])
  }

  lemma {:induction false} LeadingDigitsAre(s: string, k: nat)
    requires k <= |s| && forall i :: 0 <= i < k ==> IsDigit(s[i])
    requires k == |s| || !IsDigit(s[k])
    ensures LeadingDigits(s) == s[..k]
    decreases k
  {
    if k > 0 {
      LeadingDigitsAre(s[1..], k - 1);
      assert s[..k] == [s[0]] + s[1..][..k - 1];
    }
  }

  /** The pid killprocess reads: the number at the start of its argument, modulo 2^32. */
  function Pid(s: string): nat { Value(LeadingDigits(s)) % WORD }

  lemma WordArithmetic(v: nat, d: nat)
    ensures (v % WORD * 10 + d) % WORD == (10 * v + d) % WORD
  {
    var q := v / WORD;
    assert 10 * v + d == (v % WORD * 10 + d) + 10 * q * WORD;
    ModPlusMultiple(v % WORD * 10 + d, 10 * q);
  }

  lemma {:induction false} ModPlusMultiple(x: nat, m: nat)
    ensures (x + m * WORD) % WORD == x % WORD
  {
    if m > 0 { ModPlusMultiple(x, m - 1); }
  }

  /** The digit loop of cmd_killprocess, in 32-bit arithmetic. */
  method ReadPid(a: array<char>, i: nat, ghost s: string) returns (target: nat)
    requires StringAt(a[..], i, s)
    ensures target == Pid(s)
  {
    var k: nat := 0;
    target := 0;
    while '0' <= a[i + k] <= '9'
      invariant k <= |s| && (forall j :: 0 <= j < k ==> IsDigit(s[j]))
      invariant target == Value(s[..k]) % WORD
      decreases |s| - k
    {
      CharOfString(a[..], i, s, k);
      var d := a[i + k] as nat - '0' as nat;
      assert s[..k + 1][..k] == s[..k];
      WordArithmetic(Value(s[..k]), d);
      target := (target * 10 + d) % WORD;
      k := k + 1;
    }
    CharOfString(a[..], i, s, k);
    LeadingDigitsAre(s, k);
  }

  /** killprocess reads back what sh_itoa printed, for every 32-bit number. */
  lemma PrintedPidIsReadBack(n: nat)
    ensures Pid(Digits(n)) == n % WORD
    ensures Pid(Digits(n)) == n <==> n < WORD
  {
    hide Digits, Value, LeadingDigits;
    LeadingDigitsAre(Digits(n), |Digits(n)|);
    assert Digits(n)[..|Digits(n)|] == Digits(n);
    ValueOfDigits(n);
  }

  /** cmd_killprocess on the kernel: without an argument nothing happens. */
  method KillCommand(kernel: Scheduler.Kernel, line: array<char>, argc: nat, argv: array<nat>, ghost words: seq<string>)
    returns (found: bool)
    requires kernel.Valid() && argc <= argv.Length && argc <= |words|
    requires forall k :: 0 <= k < argc ==> StringAt(line[..], argv[k], words[k])
    modifies kernel, kernel.nodes, kernel.pmm`freePages, kernel.pmm.bitmap
    ensures kernel.Valid()
    ensures kernel.s == if argc < 2 then old(kernel.s) else KS.KillProcess(old(kernel.s), Pid(words[1]))
    ensures found <==> argc >= 2 && KS.FindPid(old(kernel.s), old(kernel.s.queue), Pid(words[1])).Some?
  {
    if argc < 2 { return false; }
    var target := ReadPid(line, argv[1], words[1]);
    found := kernel.KillProcess(target);
  }

  /**
   * Typing killprocess with the pid that ps, ls or newprocess printed for a process is parsed into
   * those two words, and removes exactly that process.
   */
  lemma PrintedPidKillsItsProcess(s: KS.State, i: nat)
    requires KernelInvariant.Inv(s) && i < KS.POOL
    requires KernelInvariant.Live(s, i)
    ensures (var words := ["killprocess", Digits(s.slots[i].pid)];
      && Words(Join(words)) == words
      && KernelRuns.LiveBlocks(KS.KillProcess(s, Pid(words[1]))) == KernelRuns.LiveBlocks(s) - {i})
  {
    hide KernelInvariant.Contexts, KernelInvariant.WaitLists, KernelInvariant.Stacks, Words, Digits;
    var pid := s.slots[i].pid;
    assert forall k :: 0 <= k < |Digits(pid)| ==> IsDigit(Digits(pid)[k]);
    WordsOfJoin(["killprocess", Digits(pid)]);
    PrintedPidIsReadBack(pid);
    KernelRuns.KillRemovesExactly(s, i);
  }

  /**
   * What killprocess removes: something exactly when a live block has the pid read, and then a thread
   * exactly when that pid is 0, that is, when the number at the start of the argument is a multiple of 2^32.
   */
  lemma ArgumentHitsAThreadExactlyWhen(s: KS.State, argument: string)
    requires KernelInvariant.Inv(s)
    ensures (var found := KS.FindPid(s, s.queue, Pid(argument));
      && (found.Some? <==> exists i: nat :: KernelInvariant.Live(s, i) && s.slots[i].pid == Pid(argument))
      && (found.Some? ==> (KS.POOL <= found.value <==> Value(LeadingDigits(argument)) % WORD == 0)))
  {
    KernelRuns.KillHitsAThreadExactlyWhen(s, Pid(argument));
  }

  /** Then it is the process with that number and no other block, whenever the number is a nonzero uint32. */
  lemma NumberKillsItsProcess(s: KS.State, argument: string)
    requires KernelInvariant.Inv(s) && 0 < Value(LeadingDigits(argument)) < WORD
    ensures (var n, found := Value(LeadingDigits(argument)), KS.FindPid(s, s.queue, Pid(argument));
      && (found.None? ==> KS.KillProcess(s, Pid(argument)) == s)
      && (found.Some? ==>
            && found.value < KS.POOL && s.slots[found.value].pid == n
            && KernelRuns.LiveBlocks(KS.KillProcess(s, Pid(argument))) == KernelRuns.LiveBlocks(s) - {found.value}))
  {
    hide KS.KillProcess, KernelRuns.LiveBlocks;
    KernelRuns.NonzeroPidKillsItsProcess(s, Pid(argument));
  }

  /** No digits at all, the digit 0, and 2^32 all read as pid 0, which every thread has and no process. */
  lemma ReadsAsZero(argument: string)
    ensures Pid("0") == 0 && Pid(Digits(WORD)) == 0
    ensures LeadingDigits(argument) == "" ==> Pid(argument) == 0
  {
    assert Digits(0) == "0";
    PrintedPidIsReadBack(0);
    PrintedPidIsReadBack(WORD);
  }

  // ---- shell_run ------------------------------------------------------------------------

  class CommandLine {
    const line: array<char>
    var pos: nat
    const terminal: Terminal

    ghost predicate Valid()
      reads this, line, terminal
    {
      line.Length == MAX_LINE && pos < MAX_LINE && '\0' !in line[..pos] && terminal.Valid()
    }

    ghost function Text(): string
      requires pos <= line.Length
      reads this, line
    {
      line[..pos]
    }

    constructor (terminal: Terminal)
      requires terminal.Valid()
      ensures Valid() && fresh(line) && this.terminal == terminal && Text() == ""
    {
      line := new char[MAX_LINE];
      pos := 0;
      this.terminal := terminal;
    }

    /** One round of the loop for a key other than Enter; 0 is not a key. */
    method EditKey(c: char)
      requires Valid() && c != '\n' && c != '\0'
      modifies this`pos, line, terminal`row, terminal`col, terminal.buffer
      ensures Valid()
      ensures Text() == Edit(old(Text()), c)
      ensures terminal.View() == if Echoed(old(Text()), c) then old(terminal.View()).Put(c) else old(terminal.View())
    {
      if c == '\U{8}' {
        if pos > 0 {
          pos := pos - 1;
          terminal.PutChar('\U{8}');
        }
      } else if pos < MAX_LINE - 1 {
        line[pos] := c;
        pos := pos + 1;
        terminal.PutChar(c);
      }
    }

    /** Enter: the line is terminated and parsed, and a new one begins. */
    method Enter(argv: array<nat>) returns (argc: nat)
      requires Valid() && argv.Length == MAX_ARGS
      modifies this`pos, line, argv, terminal`row, terminal`col, terminal.buffer
      ensures Valid() && Text() == ""
      ensures terminal.View() == old(terminal.View()).Put('\n')
      ensures (var words := Words(old(Text()));
        && argc == (if |words| < 16 then |words| else 16)
        && forall k :: 0 <= k < argc ==> StringAt(line[..], argv[k], words[k]))
    {
      terminal.PutChar('\n');
      line[pos] := '\0';
      argc := 0;
      if pos > 0 { argc := Parse(line, argv, line[..pos]); }
      pos := 0;
    }
  }
}
