/** The built-in command layer of the shell: the registry of names and
    handlers, the lookup and dispatch over it, and the six handlers.

    A handler returns the status that drives the read-eval loop (1: go on,
    0: leave the loop) together with the text it writes to standard output.
    What a handler learns from the operating system (whether `chdir`
    succeeded, what `getcwd` returned, the history buffer kept by the line
    reader) is passed in as an `Env`. */
module Builtins {
  import opened Wrappers

  /** The registry's name table, in table order (the `sush` build adds a
      seventh entry, which is not part of this model). */
  const BuiltinStr: seq<string> := ["help", "cd", "pwd", "echo", "exit", "record"]

  /** The handler functions of the registry. */
  datatype Handler = HelpFn | CdFn | PwdFn | EchoFn | ExitShellFn | RecordFn

  /** The registry's handler table, parallel to `BuiltinStr`. */
  const BuiltinFunc: seq<Handler> := [HelpFn, CdFn, PwdFn, EchoFn, ExitShellFn, RecordFn]

  /** The number of registry entries; both tables have exactly that many. */
  function NumBuiltins(): (n: nat)
    ensures n == |BuiltinStr| && n == |BuiltinFunc|
  {
    |BuiltinStr|
  }

  // ---------------------------------------------------------------------
  // Lookup and dispatch
  // ---------------------------------------------------------------------

  /** The lowest index at which `name` occurs in `names`, or -1. */
  function FirstIndex(names: seq<string>, name: string): (r: int)
    ensures -1 <= r < |names|
    ensures r == -1 <==> name !in names
    ensures r >= 0 ==> names[r] == name && forall j :: 0 <= j < r ==> names[j] != name
    decreases |names|
  {
    if |names| == 0 then -1
    else if names[0] == name then 0
    else
      var t := FirstIndex(names[1..], name);
      assert names == [names[0]] + names[1..];
      if t == -1 then -1 else t + 1
  }

  /** Linear search of the name table for `args[0]`: the registry index of
      the first entry equal to it, or -1 when it names no built-in. */
  method SearchBuiltInCommand(args: seq<string>) returns (r: int)
    requires |args| >= 1
    ensures -1 <= r < NumBuiltins()
    ensures r == -1 <==> args[0] !in BuiltinStr
    ensures r >= 0 ==> BuiltinStr[r] == args[0]
    ensures r == FirstIndex(BuiltinStr, args[0])
  {
    var i := 0;
    while i < NumBuiltins()
      invariant 0 <= i <= NumBuiltins()
      invariant forall j :: 0 <= j < i ==> BuiltinStr[j] != args[0]
    {
      if args[0] == BuiltinStr[i] {
        return i;
      }
      i := i + 1;
    }
    return -1;
  }

  /** No element occurs twice in `s`. */
  predicate Distinct<T(==)>(s: seq<T>) {
    forall j, k :: 0 <= j < k < |s| ==> s[j] != s[k]
  }

  /** In a table without repeated names every entry is found at its own index. */
  lemma FirstIndexOfEntry(names: seq<string>, i: nat)
    requires Distinct(names) && i < |names|
    ensures FirstIndex(names, names[i]) == i
  {
  }

  /** The names are pairwise distinct, so every entry is found at its own
      index; "exit" is entry 4 and entry 4 of the handler table is
      `exit_shell`. */
  lemma RegistryLookup()
    ensures Distinct(BuiltinStr)
    ensures forall i :: 0 <= i < NumBuiltins() ==> FirstIndex(BuiltinStr, BuiltinStr[i]) == i
    ensures FirstIndex(BuiltinStr, "exit") == 4 && BuiltinFunc[4] == ExitShellFn
    ensures FirstIndex(BuiltinStr, "amogus") == -1
  {
    RegistryNamesDistinct();
    forall i | 0 <= i < NumBuiltins()
      ensures FirstIndex(BuiltinStr, BuiltinStr[i]) == i
    {
      FirstIndexOfEntry(BuiltinStr, i);
    }
    FirstIndexOfEntry(BuiltinStr, 4);
    assert "amogus"[0] == 'a';
  }

  lemma RegistryNamesDistinct()
    ensures Distinct(BuiltinStr)
  {
    assert "help"[0] == 'h' && "cd"[0] == 'c' && "pwd"[0] == 'p' && "record"[0] == 'r';
    assert "echo"[0] == 'e' && "echo"[1] == 'c' && "exit"[1] == 'x';
  }

  /** What the operating system and the line reader supply to a handler. */
  datatype Env = Env(chdirSucceeds: bool, cwd: Option<string>, history: History)

  /** The history buffer: `slots` is the array of MAX_RECORD_NUM entries
      (its length is that constant) and `count` the number of lines read. */
  datatype History = History(slots: seq<string>, count: nat)

  /** A handler's result: the loop status and the text written to stdout. */
  datatype Outcome = Outcome(status: int, out: string)

  /** The handler selected by a registry index, applied to `args`. */
  function Run(h: Handler, args: seq<string>, env: Env): Outcome
    requires |args| >= 1 && |env.history.slots| > 0
  {
    match h
    case HelpFn => Outcome(1, HelpText())
    case CdFn => Cd(args, env.chdirSucceeds)
    case PwdFn => Pwd(env.cwd)
    case EchoFn => Outcome(1, EchoText(args))
    case ExitShellFn => Outcome(ExitShell(args), "")
    case RecordFn => Outcome(1, RenderRecord(RecordEntries(env.history)))
  }

  /** Dispatch through the handler table: the result is exactly what the
      handler at `index` returns. */
  method ExecBuiltInCommand(index: int, args: seq<string>, env: Env) returns (o: Outcome)
    requires 0 <= index < NumBuiltins()
    requires |args| >= 1 && |env.history.slots| > 0
    ensures o == Run(BuiltinFunc[index], args, env)
  {
    match BuiltinFunc[index]
    case HelpFn => o := Help(args);
    case CdFn => o := Cd(args, env.chdirSucceeds);
    case PwdFn => o := Pwd(env.cwd);
    case EchoFn => o := Echo(args);
    case ExitShellFn => o := Outcome(ExitShell(args), "");
    case RecordFn => o := Record(env.history);
  }

  /** Every handler answers 1 or 0, and 0 (leave the loop) comes only from
      `exit`, whatever its arguments, and from `cd` whose `chdir` failed. */
  lemma StatusStopsOnlyOnExitOrFailedCd(h: Handler, args: seq<string>, env: Env)
    requires |args| >= 1 && |env.history.slots| > 0
    ensures Run(h, args, env).status == 0 || Run(h, args, env).status == 1
    ensures Run(h, args, env).status == 0 <==>
              h == ExitShellFn || (h == CdFn && |args| >= 2 && !env.chdirSucceeds)
  {
  }

  // ---------------------------------------------------------------------
  // Number formatting (printf's %d and %2d for non-negative values)
  // ---------------------------------------------------------------------

  function Digit(d: nat): (c: char)
    requires d < 10
    ensures '0' <= c <= '9'
  {
    ('0' as int + d) as char
  }

  /** `n` in decimal, without leading zeros. */
  function Decimal(n: nat): (s: string)
    ensures |s| >= 1 && forall i :: 0 <= i < |s| ==> '0' <= s[i] <= '9'
  {
    if n < 10 then [Digit(n)] else Decimal(n / 10) + [Digit(n % 10)]
  }

  /** The value of a string of decimal digits. */
  function DecimalValue(s: string): nat
    requires forall i :: 0 <= i < |s| ==> '0' <= s[i] <= '9'
  {
    if |s| == 0 then 0
    else DecimalValue(s[..|s| - 1]) * 10 + (s[|s| - 1] as int - '0' as int)
  }

  /** The printed number reads back as the number. */
  lemma {:induction false} DecimalRoundTrip(n: nat)
    ensures DecimalValue(Decimal(n)) == n
  {
    if n >= 10 {
      DecimalRoundTrip(n / 10);
      var s := Decimal(n);
      assert s[..|s| - 1] == Decimal(n / 10);
    }
  }

  /** `%2d`: right-aligned in a field of width two. */
  function Pad2(s: string): (r: string)
    ensures |r| >= 2 && |r| >= |s|
    ensures r[|r| - |s|..] == s
    ensures forall i :: 0 <= i < |r| - |s| ==> r[i] == ' '
  {
    if |s| < 2 then seq(2 - |s|, _ => ' ') + s else s
  }

  // ---------------------------------------------------------------------
  // help
  // ---------------------------------------------------------------------

  const Rule: string := "--------------------------------------------------\n"

  /** One line of the help listing: `%d: %s\n`. */
  function HelpEntry(i: nat, name: string): string {
    Decimal(i) + ": " + name + "\n"
  }

  /** The listing lines for `names`, numbered from 0. */
  function HelpList(names: seq<string>): string {
    if |names| == 0 then ""
    else HelpList(names[..|names| - 1]) + HelpEntry(|names| - 1, names[|names| - 1])
  }

  /** Everything `help` writes. */
  function HelpText(): string {
    HelpBanner() + HelpList(BuiltinStr) + Rule
  }

  /** The lines `help` prints before the listing. */
  function HelpBanner(): string {
    Rule + "My Little Shell!!\n" + "The following are built in:\n"
  }

  /** `help`: a banner, one line per registry entry, a rule; returns 1. */
  method Help(args: seq<string>) returns (o: Outcome)
    ensures o == Outcome(1, HelpText())
  {
    var listing := HelpLoop(BuiltinStr);
    o := Outcome(1, HelpBanner() + listing + Rule);
  }

  /** The loop of `help` over a name table: `i: name` for each entry. */
  method HelpLoop(names: seq<string>) returns (out: string)
    ensures out == HelpList(names)
  {
    out := "";
    var i := 0;
    while i < |names|
      invariant 0 <= i <= |names|
      invariant out == HelpList(names[..i])
    {
      HelpListStep(names, i);
      out := out + HelpEntry(i, names[i]);
      i := i + 1;
    }
    assert names[..i] == names;
  }

  /** Line k of the help listing is `k: name_k`, and the number printed
      reads back as the index the lookup returns for that name, which is
      therefore the handler dispatch runs for it. */
  lemma HelpNumbersAreRegistryIndices(k: nat)
    requires k < NumBuiltins()
    ensures HelpList(BuiltinStr[..k + 1]) == HelpList(BuiltinStr[..k]) + HelpEntry(k, BuiltinStr[k])
    ensures DecimalValue(Decimal(k)) == k
    ensures FirstIndex(BuiltinStr, BuiltinStr[k]) == k
  {
    HelpListStep(BuiltinStr, k);
    DecimalRoundTrip(k);
    RegistryNamesDistinct();
    FirstIndexOfEntry(BuiltinStr, k);
  }

  lemma HelpListStep(names: seq<string>, k: nat)
    requires k < |names|
    ensures HelpList(names[..k + 1]) == HelpList(names[..k]) + HelpEntry(k, names[k])
  {
    assert names[..k + 1][..k] == names[..k];
  }

  // ---------------------------------------------------------------------
  // cd, pwd, exit
  // ---------------------------------------------------------------------

  /** `cd`: without a target it prints a message and returns 1; otherwise
      it returns 1 when `chdir` succeeds and 0 when it fails. */
  function Cd(args: seq<string>, chdirSucceeds: bool): (o: Outcome)
    ensures o.status == 0 <==> |args| >= 2 && !chdirSucceeds
    ensures o.status == 0 || o.status == 1
    ensures o.out != "" <==> |args| < 2
  {
    if |args| < 2 then Outcome(1, "cd: missing argument\n")
    else if chdirSucceeds then Outcome(1, "")
    else Outcome(0, "")
  }

  /** `pwd`: prints the working directory when `getcwd` gives one; always 1. */
  function Pwd(cwd: Option<string>): (o: Outcome)
    ensures o.status == 1
    ensures cwd.Some? ==> o.out == cwd.value + "\n"
    ensures cwd.None? ==> o.out == ""
  {
    if cwd.Some? then Outcome(1, cwd.value + "\n") else Outcome(1, "")
  }

  /** `exit`: returns 0, whatever the arguments. */
  function ExitShell(args: seq<string>): (status: int)
    ensures status == 0
  {
    0
  }

  // ---------------------------------------------------------------------
  // echo
  // ---------------------------------------------------------------------

  /** `words` separated by single spaces, with no space after the last. */
  function Join(words: seq<string>): string {
    if |words| == 0 then ""
    else if |words| == 1 then words[0]
    else Join(words[..|words| - 1]) + " " + words[|words| - 1]
  }

  /** Splitting at every space; the inverse of `Join` on space-free words. */
  function Split(s: string): (r: seq<string>)
    ensures |r| >= 1
  {
    if |s| == 0 then [""]
    else
      var t := Split(s[..|s| - 1]);
      if s[|s| - 1] == ' ' then t + [""]
      else t[..|t| - 1] + [t[|t| - 1] + [s[|s| - 1]]]
  }

  /** Only a `-n` in position 1 switches the newline off. */
  predicate SuppressNewline(args: seq<string>) {
    |args| > 1 && args[1] == "-n"
  }

  /** The first argument that `echo` prints. */
  function EchoStart(args: seq<string>): nat {
    if SuppressNewline(args) then 2 else 1
  }

  /** What `echo` writes. */
  function EchoText(args: seq<string>): string
    requires |args| >= 1
  {
    Join(args[EchoStart(args)..]) + (if SuppressNewline(args) then "" else "\n")
  }

  /** `echo`: prints the arguments after the command name separated by
      spaces and ends with a newline, except that a `-n` right after the
      name is not printed and suppresses the newline; returns 1. */
  method Echo(args: seq<string>) returns (o: Outcome)
    requires |args| >= 1
    ensures o == Outcome(1, EchoText(args))
  {
    var newline := true;
    var out := "";
    var i := 1;
    while i < |args|
      invariant 1 <= i <= |args|
      invariant i == 1 ==> newline && out == ""
      invariant i > 1 ==> newline == !SuppressNewline(args) && EchoStart(args) <= i
      invariant i > 1 ==> out == Join(args[EchoStart(args)..i]) + (if EchoStart(args) < i < |args| then " " else "")
    {
      if i == 1 && args[i] == "-n" {
        newline := false;
        i := i + 1;
        continue;
      }
      JoinSnoc(args, EchoStart(args), i);
      out := out + args[i];
      if i + 1 < |args| {
        out := out + " ";
      }
      i := i + 1;
    }
    SliceToEnd(args, EchoStart(args));
    if newline {
      out := out + "\n";
    }
    o := Outcome(1, out);
  }

  /** Joining one more argument adds a space and the argument. */
  lemma JoinSnoc(args: seq<string>, s: nat, i: nat)
    requires s <= i < |args|
    ensures Join(args[s..i + 1]) == if i == s then args[i] else Join(args[s..i]) + " " + args[i]
  {
    assert args[s..i + 1][..i - s] == args[s..i];
  }

  lemma SliceToEnd<T>(s: seq<T>, k: nat)
    requires k <= |s|
    ensures s[k..|s|] == s[k..]
  {
  }

  /** Splitting one word that has no space gives that word back. */
  lemma {:induction false} SplitWord(w: string)
    requires ' ' !in w
    ensures Split(w) == [w]
  {
    if |w| > 0 {
      assert ' ' !in w[..|w| - 1];
      SplitWord(w[..|w| - 1]);
      assert w[..|w| - 1] + [w[|w| - 1]] == w;
    }
  }

  /** A space followed by a space-free word adds exactly that word. */
  lemma {:induction false} SplitAppendWord(a: string, w: string)
    requires ' ' !in w
    ensures Split(a + " " + w) == Split(a) + [w]
    decreases |w|
  {
    var s := a + " " + w;
    if |w| == 0 {
      assert s[..|s| - 1] == a;
    } else {
      var w' := w[..|w| - 1];
      assert ' ' !in w';
      SplitAppendWord(a, w');
      assert s[..|s| - 1] == a + " " + w';
      assert w' + [w[|w| - 1]] == w;
    }
  }

  /** Join and Split are inverse on non-empty lists of space-free words. */
  lemma {:induction false} SplitJoin(words: seq<string>)
    requires |words| >= 1
    requires forall i :: 0 <= i < |words| ==> ' ' !in words[i]
    ensures Split(Join(words)) == words
  {
    if |words| == 1 {
      SplitWord(words[0]);
    } else {
      var init := words[..|words| - 1];
      SplitJoin(init);
      SplitAppendWord(Join(init), words[|words| - 1]);
      assert init + [words[|words| - 1]] == words;
    }
  }

  /** The printed words can be recovered from `echo`'s output: without its
      final newline (if any) it splits back into exactly the arguments that
      were printed. */
  lemma EchoWordsRecoverable(args: seq<string>)
    requires |args| > EchoStart(args)
    requires forall i :: EchoStart(args) <= i < |args| ==> ' ' !in args[i]
    ensures var text := EchoText(args);
            var body := if SuppressNewline(args) then text else text[..|text| - 1];
            Split(body) == args[EchoStart(args)..]
  {
    var words := args[EchoStart(args)..];
    forall i | 0 <= i < |words| ensures ' ' !in words[i] {
      assert words[i] == args[EchoStart(args) + i];
    }
    SplitJoin(words);
    var text := EchoText(args);
    if SuppressNewline(args) {
      assert text == Join(words);
    } else {
      assert text == Join(words) + "\n";
      assert text[..|text| - 1] == Join(words);
    }
  }

  /** A leading `-n` changes nothing but the final newline. */
  lemma EchoDashNOnlyDropsNewline(cmd: string, rest: seq<string>)
    requires |rest| == 0 || rest[0] != "-n"
    ensures EchoText([cmd, "-n"] + rest) + "\n" == EchoText([cmd] + rest)
  {
    assert ([cmd, "-n"] + rest)[2..] == rest;
    assert ([cmd] + rest)[1..] == rest;
  }

  // ---------------------------------------------------------------------
  // record
  // ---------------------------------------------------------------------

  /** One line of the history listing: `%2d: %s\n`. */
  function RecordLine(k: nat, entry: string): string {
    Pad2(Decimal(k)) + ": " + entry + "\n"
  }

  /** The listing of `entries`, numbered from 1. */
  function RenderRecord(entries: seq<string>): string {
    if |entries| == 0 then ""
    else RenderRecord(entries[..|entries| - 1]) + RecordLine(|entries|, entries[|entries| - 1])
  }

  /** The history entries `record` shows, in the order it shows them. */
  function RecordEntries(h: History): (r: seq<string>)
    requires |h.slots| > 0
  {
    var m := |h.slots|;
    if h.count < m then h.slots[..h.count]
    else seq(m, k requires 0 <= k < m => h.slots[WrapSlot(h, k)])
  }

  /** The slot shown on line k+1 once the buffer has wrapped. */
  function WrapSlot(h: History, k: int): (s: int)
    requires |h.slots| > 0
    ensures 0 <= s < |h.slots|
  {
    (h.count % |h.slots| + k) % |h.slots|
  }

  /** `record`: before the buffer has wrapped it lists slots 0..count-1;
      afterwards it lists all slots starting at `count % MAX_RECORD_NUM`,
      wrapping round; lines are numbered from 1; returns 1. */
  method Record(h: History) returns (o: Outcome)
    requires |h.slots| > 0
    ensures o == Outcome(1, RenderRecord(RecordEntries(h)))
  {
    var m := |h.slots|;
    var out := "";
    if h.count < m {
      var i := 0;
      while i < h.count
        invariant 0 <= i <= h.count
        invariant out == RenderRecord(h.slots[..i])
      {
        RenderRecordStep(h.slots, i);
        out := out + RecordLine(i + 1, h.slots[i]);
        i := i + 1;
      }
    } else {
      ghost var shown := RecordEntries(h);
      var start := h.count % m;
      var i := start;
      while i < start + m
        invariant start <= i <= start + m
        invariant out == RenderRecord(shown[..i - start])
      {
        RecordWrapStep(h, i);
        out := out + RecordLine(i - start + 1, h.slots[i % m]);
        i := i + 1;
      }
      assert shown[..m] == shown;
    }
    o := Outcome(1, out);
  }

  /** The listing grows by one numbered line per entry. */
  lemma RenderRecordStep(entries: seq<string>, k: nat)
    requires k < |entries|
    ensures RenderRecord(entries[..k + 1]) == RenderRecord(entries[..k]) + RecordLine(k + 1, entries[k])
  {
    assert entries[..k + 1][..k] == entries[..k];
  }

  /** One pass of the wrapped loop of `record`, whose counter runs from
      `count % MAX_RECORD_NUM` and indexes the buffer modulo its size. */
  lemma RecordWrapStep(h: History, i: int)
    requires 0 < |h.slots| <= h.count
    requires h.count % |h.slots| <= i < h.count % |h.slots| + |h.slots|
    ensures var k := i - h.count % |h.slots|;
            RenderRecord(RecordEntries(h)[..k + 1]) == RenderRecord(RecordEntries(h)[..k]) + RecordLine(k + 1, h.slots[i % |h.slots|])
  {
    var m := |h.slots|;
    var r := h.count % m;
    var k := i - r;
    assert r + k == i;
    assert WrapSlot(h, k) == i % m;
    var shown := RecordEntries(h);
    assert shown[k] == h.slots[WrapSlot(h, k)];
    RenderRecordStep(shown, k);
  }

  lemma MulAwayFromZero(d: int, m: int)
    requires m > 0
    ensures d >= 1 ==> d * m >= m
    ensures d <= -1 ==> d * m <= -m
  {
  }

  /** The remainder is the unique r in [0, m) with x = q*m + r. */
  lemma ModUnique(x: int, q: int, r: int, m: int)
    requires m > 0 && 0 <= r < m && x == q * m + r
    ensures x % m == r
  {
    var d := q - x / m;
    assert d * m == x % m - r;
    MulAwayFromZero(d, m);
  }

  /** Once wrapped, line k+1 shows slot (count + k) mod MAX_RECORD_NUM. */
  lemma RecordWrapSlot(h: History, k: nat)
    requires 0 < |h.slots| <= h.count && k < |h.slots|
    ensures |RecordEntries(h)| == |h.slots|
    ensures RecordEntries(h)[k] == h.slots[(h.count + k) % |h.slots|]
    ensures WrapSlot(h, k) == (h.count + k) % |h.slots|
  {
    var m := |h.slots|;
    var r := h.count % m;
    var q := h.count / m;
    if r + k < m {
      ModUnique(r + k, 0, r + k, m);
      ModUnique(h.count + k, q, r + k, m);
    } else {
      ModUnique(r + k, 1, r + k - m, m);
      ModUnique(h.count + k, q + 1, r + k - m, m);
    }
  }

  /** Once wrapped, `record` shows no slot twice ... */
  lemma RecordWrapSlotsDistinct(h: History)
    requires 0 < |h.slots| <= h.count
    ensures forall k1, k2 :: 0 <= k1 < k2 < |h.slots| ==> WrapSlot(h, k1) != WrapSlot(h, k2)
  {
    var m := |h.slots|;
    var r := h.count % m;
    forall k1, k2 | 0 <= k1 < k2 < m
      ensures WrapSlot(h, k1) != WrapSlot(h, k2)
    {
      SlotOf(r, k1, m);
      SlotOf(r, k2, m);
    }
  }

  /** Slot `s` is shown on some line once the buffer has wrapped. */
  ghost predicate SlotShown(h: History, s: int)
    requires |h.slots| > 0
  {
    exists k :: 0 <= k < |h.slots| && WrapSlot(h, k) == s
  }

  /** ... and misses none. */
  lemma RecordWrapSlotsCover(h: History)
    requires 0 < |h.slots| <= h.count
    ensures forall s :: 0 <= s < |h.slots| ==> SlotShown(h, s)
  {
    var m := |h.slots|;
    var r := h.count % m;
    forall s | 0 <= s < m
      ensures SlotShown(h, s)
    {
      var k := if s >= r then s - r else s + m - r;
      SlotOf(r, k, m);
      assert WrapSlot(h, k) == s;
    }
  }

  /** Slot r + k of the wrapped walk, for r, k < m. */
  lemma SlotOf(r: int, k: int, m: int)
    requires 0 <= r < m && 0 <= k < m
    ensures (r + k) % m == if r + k < m then r + k else r + k - m
  {
    if r + k < m {
      ModUnique(r + k, 0, r + k, m);
    } else {
      ModUnique(r + k, 1, r + k - m, m);
    }
  }

  /** How the line reader fills the buffer: after commands `cmds` have been
      stored, `count` is their number and each of the last MAX_RECORD_NUM
      of them sits in slot (index mod MAX_RECORD_NUM). */
  ghost predicate HoldsRecent(h: History, cmds: seq<string>)
    requires |h.slots| > 0
  {
    h.count == |cmds| &&
    forall j :: 0 <= j < |cmds| && j + |h.slots| >= |cmds| ==> h.slots[j % |h.slots|] == cmds[j]
  }

  /** `record` lists the most recent MAX_RECORD_NUM commands (all of them
      while fewer were read), oldest first. */
  lemma RecordShowsMostRecent(h: History, cmds: seq<string>)
    requires |h.slots| > 0 && HoldsRecent(h, cmds)
    ensures h.count < |h.slots| ==> RecordEntries(h) == cmds
    ensures h.count >= |h.slots| ==> RecordEntries(h) == cmds[|cmds| - |h.slots|..]
  {
    var m := |h.slots|;
    if h.count < m {
      forall j | 0 <= j < h.count ensures h.slots[j] == cmds[j] {
        ModUnique(j, 0, j, m);
      }
    } else {
      var want := cmds[|cmds| - m..];
      forall k | 0 <= k < m ensures RecordEntries(h)[k] == want[k] {
        RecordWrapSlot(h, k);
        var j := |cmds| - m + k;
        var q := (h.count + k) / m;
        ModUnique(h.count + k, q, (h.count + k) % m, m);
        ModUnique(j, q - 1, (h.count + k) % m, m);
      }
    }
  }
}
