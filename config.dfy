/**
 * What `read_config` does with the configuration file, as functions of the
 * file and of the settings held before it runs: the line-by-line parse over
 * the four keys and the range check that follows it.
 */
module Config {
  import opened RubyText

  /** The four settings `read_config` overwrites. */
  datatype Settings = Settings(
    notifyDelay: int,
    enableNotify: bool,
    countdownTimer: int,
    persistentTimer: bool)

  /** The values `initialize` gives the instance before any file is read. */
  const DEFAULTS := Settings(300, false, 30, false)

  const NOTIFY_DELAY_KEY := "NOTIFY DELAY"
  const ENABLE_NOTIFY_KEY := "ENABLE NOTIFY"
  const INITIAL_TIMER_KEY := "INITIAL TIMER"
  const PERSISTENT_TIMER_KEY := "PERSISTENT TIMER"

  /** The configuration file as the process finds it. */
  datatype ConfigFile = Absent | Unreadable | Readable(text: string)

  /** A line of text followed by its "\n". */
  function Line(body: string): string
  {
    body + "\n"
  }

  /** The comment lines of the default configuration text. The longer ones
      are spelt in two pieces, which keeps every string literal short for the
      verifier; the characters are those `read_config` writes
      (CountdownI.rb:106). */
  const CONFIG_INTRO := "//The configuration file is simple:"
  const NOTIFY_DELAY_HELP := "//NOTIFY DELAY=<number> being number " + "in the range 60-1200 seconds"
  const ENABLE_NOTIFY_HELP := "//ENABLE NOTIFY=TRUE/FALSE anything " + "other than that means false."
  const INITIAL_TIMER_HELP := "//INITIAL TIMER=<number> the initial " + "countdown timer"
  const PERSISTENT_TIMER_HELP := "//PERSISTENT TIMER=TRUE/FALSE anything " + "other than that means false."

  /** The text `read_config` writes when there is no configuration file, line
      by line; the key lines are spelt with the key constants. */
  const DEFAULT_CONFIG_LINES: seq<string> := [
    Line(CONFIG_INTRO),
    Line(NOTIFY_DELAY_HELP),
    Line(ENABLE_NOTIFY_HELP),
    Line(INITIAL_TIMER_HELP),
    Line(PERSISTENT_TIMER_HELP),
    Line(""),
    Line(NOTIFY_DELAY_KEY + "=" + "300"),
    Line(ENABLE_NOTIFY_KEY + "=" + "FALSE"),
    Line(INITIAL_TIMER_KEY + "=" + "30"),
    Line(PERSISTENT_TIMER_KEY + "=" + "FALSE")
  ]

  const DEFAULT_CONFIG_TEXT := Concat(DEFAULT_CONFIG_LINES)

  predicate IsKey(k: string)
  {
    k == NOTIFY_DELAY_KEY || k == ENABLE_NOTIFY_KEY || k == INITIAL_TIMER_KEY || k == PERSISTENT_TIMER_KEY
  }

  predicate IsSwitchKey(k: string)
  {
    k == ENABLE_NOTIFY_KEY || k == PERSISTENT_TIMER_KEY
  }

  /** Comment lines and blank lines are passed over. */
  predicate IsSkipped(line: string)
  {
    StartsWith(line, "//") || |Chomp(line)| == 0
  }

  /** The key a line assigns: its first "="-separated field when that is one
      of the four keys, and "" for every other line. */
  function AssignedKey(line: string): (k: string)
    ensures k == "" || IsKey(k)
  {
    if IsSkipped(line) then ""
    else
      var parts := Split(line, '=');
      if |parts| > 0 && IsKey(parts[0]) then parts[0] else ""
  }

  /** The second field of a line, or "" when `param_value_list[1]` is nil
      (nil.to_i is 0, which ToI("") gives as well). */
  function ValueOf(line: string): string
  {
    var fields := Split(line, '=');
    if |fields| >= 2 then fields[1] else ""
  }

  /** A switch line with no second field: `param_value_list[1].chomp` is then
      called on nil and raises NoMethodError. */
  predicate RaisesOn(line: string)
  {
    IsSwitchKey(AssignedKey(line)) && |Split(line, '=')| < 2
  }

  predicate NoneRaise(lines: seq<string>)
  {
    forall i :: 0 <= i < |lines| ==> !RaisesOn(lines[i])
  }

  /** Reading the file raises: it is readable and one of its lines raises. */
  predicate ReadRaises(file: ConfigFile)
  {
    file.Readable? && !NoneRaise(Lines(file.text))
  }

  /** The index of the first line that raises, or |lines| when none does. */
  function FirstRaising(lines: seq<string>): (k: nat)
    ensures k <= |lines|
    ensures forall i :: 0 <= i < k ==> !RaisesOn(lines[i])
    ensures k < |lines| ==> RaisesOn(lines[k])
    ensures k == |lines| <==> NoneRaise(lines)
    decreases |lines|
  {
    if lines == [] then 0
    else if RaisesOn(lines[0]) then 0
    else 1 + FirstRaising(lines[1..])
  }

  /** What one line of the file assigns, if anything. */
  datatype Assignment =
    | NoAssignment
    | SetNotifyDelay(delay: int)
    | SetEnableNotify(enable: bool)
    | SetInitialTimer(timer: int)
    | SetPersistentTimer(persistent: bool)

  /** The `case param_value_list[0]` of one loop pass: a number key takes the
      value's `to_i`, a switch is set exactly when the chomped value is "TRUE". */
  function Parse(line: string): (a: Assignment)
    ensures a == NoAssignment <==> AssignedKey(line) == ""
  {
    var key := AssignedKey(line);
    if key == NOTIFY_DELAY_KEY then SetNotifyDelay(ToI(ValueOf(line)))
    else if key == ENABLE_NOTIFY_KEY then SetEnableNotify(Chomp(ValueOf(line)) == "TRUE")
    else if key == INITIAL_TIMER_KEY then SetInitialTimer(ToI(ValueOf(line)))
    else if key == PERSISTENT_TIMER_KEY then SetPersistentTimer(Chomp(ValueOf(line)) == "TRUE")
    else NoAssignment
  }

  function Assign(s: Settings, a: Assignment): Settings
  {
    match a
    case NoAssignment => s
    case SetNotifyDelay(d) => s.(notifyDelay := d)
    case SetEnableNotify(b) => s.(enableNotify := b)
    case SetInitialTimer(t) => s.(countdownTimer := t)
    case SetPersistentTimer(p) => s.(persistentTimer := p)
  }

  /** One pass of the `while (line = config_file.gets)` body on a line that
      does not raise. */
  function ApplyLine(s: Settings, line: string): Settings
  {
    Assign(s, Parse(line))
  }

  /** The settings after the loop has run over `lines`, in order. */
  function ApplyLines(s: Settings, lines: seq<string>): Settings
    decreases |lines|
  {
    if lines == [] then s
    else ApplyLine(ApplyLines(s, lines[..|lines| - 1]), lines[|lines| - 1])
  }

  predicate InRange(s: Settings)
  {
    60 <= s.notifyDelay <= 1200 && s.countdownTimer > 0
  }

  /** The range check at the end of `read_config`. */
  function Validate(s: Settings): (r: Settings)
    ensures InRange(r)
    ensures 60 <= s.notifyDelay <= 1200 ==> r.notifyDelay == s.notifyDelay
    ensures !(60 <= s.notifyDelay <= 1200) ==> r.notifyDelay == DEFAULTS.notifyDelay
    ensures s.countdownTimer > 0 ==> r.countdownTimer == s.countdownTimer
    ensures s.countdownTimer <= 0 ==> r.countdownTimer == DEFAULTS.countdownTimer
    ensures r.enableNotify == s.enableNotify && r.persistentTimer == s.persistentTimer
  {
    var s1 := if s.notifyDelay < 60 || s.notifyDelay > 1200 then s.(notifyDelay := 300) else s;
    if s1.countdownTimer <= 0 then s1.(countdownTimer := 30) else s1
  }

  /** The settings `read_config` leaves when it returns, starting from `s`:
      an absent or unreadable file keeps them, a readable one is parsed; the
      range check runs in every case. */
  function Load(s: Settings, file: ConfigFile): (r: Settings)
    requires !ReadRaises(file)
    ensures InRange(r)
    ensures !file.Readable? ==> r == Validate(s)
  {
    match file
    case Readable(text) => Validate(ApplyLines(s, Lines(text)))
    case _ => Validate(s)
  }

  /** The configuration file after `read_config`: created with the default text
      when it was absent, untouched otherwise. */
  function ConfigAfterLoad(file: ConfigFile): (after: ConfigFile)
    ensures file.Absent? ==> after == Readable(DEFAULT_CONFIG_TEXT)
    ensures !file.Absent? ==> after == file
    ensures !after.Absent?
  {
    if file.Absent? then Readable(DEFAULT_CONFIG_TEXT) else file
  }

  // ---------------------------------------------------------------------
  // Properties of the parse
  // ---------------------------------------------------------------------

  /** Running the loop over `a + b` is running it over `a`, then over `b`. */
  lemma {:induction false} ApplyLinesAppend(s: Settings, a: seq<string>, b: seq<string>)
    ensures ApplyLines(s, a + b) == ApplyLines(ApplyLines(s, a), b)
    decreases |b|
  {
    if b == [] {
      assert a + b == a;
    } else {
      var b' := b[..|b| - 1];
      assert (a + b)[..|a + b| - 1] == a + b';
      assert (a + b)[|a + b| - 1] == b[|b| - 1];
      ApplyLinesAppend(s, a, b');
    }
  }

  /** One more pass of the loop applies the next line. */
  lemma ApplyLinesStep(s: Settings, lines: seq<string>, i: nat)
    requires i < |lines|
    ensures ApplyLines(s, lines[..i + 1]) == ApplyLine(ApplyLines(s, lines[..i]), lines[i])
  {
    assert lines[..i + 1][..i] == lines[..i];
  }

  /** Comment lines, blank lines and lines whose key is none of the four leave
      every setting as it was. */
  lemma {:induction false} IgnoredLinesKeepSettings(s: Settings, lines: seq<string>)
    requires forall i :: 0 <= i < |lines| ==> AssignedKey(lines[i]) == ""
    ensures NoneRaise(lines)
    ensures ApplyLines(s, lines) == s
    decreases |lines|
  {
    if lines != [] {
      IgnoredLinesKeepSettings(s, lines[..|lines| - 1]);
    }
  }

  /** A run of lines none of which names a key leaves that key's setting as it was. */
  lemma {:induction false} UnnamedSettingsKept(s: Settings, lines: seq<string>, key: string)
    requires forall i :: 0 <= i < |lines| ==> AssignedKey(lines[i]) != key
    ensures key == NOTIFY_DELAY_KEY ==> ApplyLines(s, lines).notifyDelay == s.notifyDelay
    ensures key == ENABLE_NOTIFY_KEY ==> ApplyLines(s, lines).enableNotify == s.enableNotify
    ensures key == INITIAL_TIMER_KEY ==> ApplyLines(s, lines).countdownTimer == s.countdownTimer
    ensures key == PERSISTENT_TIMER_KEY ==> ApplyLines(s, lines).persistentTimer == s.persistentTimer
    decreases |lines|
  {
    if lines != [] {
      UnnamedSettingsKept(s, lines[..|lines| - 1], key);
    }
  }

  /** When a key occurs more than once its last line decides the setting: a
      number is that line's `to_i`, a switch is true exactly when the chomped
      value is "TRUE". */
  lemma LastOccurrenceWins(s: Settings, before: seq<string>, line: string, after: seq<string>)
    requires AssignedKey(line) != ""
    requires forall i :: 0 <= i < |after| ==> AssignedKey(after[i]) != AssignedKey(line)
    ensures var r := ApplyLines(s, before + [line] + after);
      && (AssignedKey(line) == NOTIFY_DELAY_KEY ==> r.notifyDelay == ToI(ValueOf(line)))
      && (AssignedKey(line) == ENABLE_NOTIFY_KEY ==> (r.enableNotify <==> Chomp(ValueOf(line)) == "TRUE"))
      && (AssignedKey(line) == INITIAL_TIMER_KEY ==> r.countdownTimer == ToI(ValueOf(line)))
      && (AssignedKey(line) == PERSISTENT_TIMER_KEY ==> (r.persistentTimer <==> Chomp(ValueOf(line)) == "TRUE"))
  {
    ApplyLinesAppend(s, before, [line]);
    assert [line][..0] == [];
    var mid := ApplyLines(s, before + [line]);
    ApplyLinesAppend(s, before + [line], after);
    UnnamedSettingsKept(mid, after, AssignedKey(line));
  }

  /** The four keys are four different strings, none ending in "\n". */
  lemma KeysDistinct()
    ensures NOTIFY_DELAY_KEY != ENABLE_NOTIFY_KEY && NOTIFY_DELAY_KEY != INITIAL_TIMER_KEY
    ensures NOTIFY_DELAY_KEY != PERSISTENT_TIMER_KEY && ENABLE_NOTIFY_KEY != INITIAL_TIMER_KEY
    ensures ENABLE_NOTIFY_KEY != PERSISTENT_TIMER_KEY && INITIAL_TIMER_KEY != PERSISTENT_TIMER_KEY
    ensures forall k :: IsKey(k) ==> k != [] && k[|k| - 1] != '\n'
  {
    assert NOTIFY_DELAY_KEY[0] == 'N' && ENABLE_NOTIFY_KEY[0] == 'E';
    assert INITIAL_TIMER_KEY[0] == 'I' && PERSISTENT_TIMER_KEY[0] == 'P';
    assert NOTIFY_DELAY_KEY[11] == 'Y' && ENABLE_NOTIFY_KEY[12] == 'Y';
    assert INITIAL_TIMER_KEY[12] == 'R' && PERSISTENT_TIMER_KEY[15] == 'R';
  }

  /** A line that ends in "\n" never raises: its last field holds the "\n", so
      a switch line always has a second field. Only the file's last line,
      when the file does not end in "\n", can raise. */
  lemma LineWithNewlineNeverRaises(line: string)
    requires line != [] && line[|line| - 1] == '\n'
    ensures !RaisesOn(line)
  {
    if IsSwitchKey(AssignedKey(line)) {
      FieldsLast(line, '=');
      FieldsJoin(line, '=');
      KeysDistinct();
    }
  }

  /** Hence the lines of a text raise only at its last line. */
  lemma OnlyLastLineRaises(text: string)
    ensures FirstRaising(Lines(text)) >= |Lines(text)| - 1
  {
    var ls := Lines(text);
    var k := FirstRaising(ls);
    if k < |ls| - 1 {
      LineEndsInNewline(text, k);
      LineWithNewlineNeverRaises(ls[k]);
    }
  }

  /** A line naming a key assigns that key and no other. */
  lemma KeyLineParse(line: string)
    ensures AssignedKey(line) == NOTIFY_DELAY_KEY ==> Parse(line) == SetNotifyDelay(ToI(ValueOf(line)))
    ensures AssignedKey(line) == ENABLE_NOTIFY_KEY ==> Parse(line) == SetEnableNotify(Chomp(ValueOf(line)) == "TRUE")
    ensures AssignedKey(line) == INITIAL_TIMER_KEY ==> Parse(line) == SetInitialTimer(ToI(ValueOf(line)))
    ensures AssignedKey(line) == PERSISTENT_TIMER_KEY ==> Parse(line) == SetPersistentTimer(Chomp(ValueOf(line)) == "TRUE")
  {
    KeysDistinct();
  }

  /** A line names a key only when it is not skipped and is that key alone
      or begins with that key followed by "=". */
  lemma AssignedKeyIsFirstField(line: string)
    ensures AssignedKey(line) != "" ==> !IsSkipped(line)
    ensures AssignedKey(line) != "" ==>
      line == AssignedKey(line) || StartsWith(line, AssignedKey(line) + "=")
  {
    var k := AssignedKey(line);
    if k != "" {
      FieldsJoin(line, '=');
      var fs := Fields(line, '=');
      assert k == fs[0];
      if |fs| > 1 {
        assert line == fs[0] + ['='] + Join(fs[1..], '=');
        assert line[..|k| + 1] == k + "=";
      }
    }
  }

  /** The keys hold no "=", do not begin with "/" and are at least twelve
      characters long. */
  lemma KeyShape(key: string)
    requires IsKey(key)
    ensures '=' !in key && key[0] != '/' && |key| >= 12
  {
    if key == NOTIFY_DELAY_KEY {
      assert '=' !in NOTIFY_DELAY_KEY;
    } else if key == ENABLE_NOTIFY_KEY {
      assert '=' !in ENABLE_NOTIFY_KEY;
    } else if key == INITIAL_TIMER_KEY {
      assert '=' !in INITIAL_TIMER_KEY;
    } else {
      assert '=' !in PERSISTENT_TIMER_KEY;
    }
  }

  /** Conversely, every line that begins with a key and "=" names that key,
      whatever follows. */
  lemma KeyLineNamesKey(key: string, rest: string)
    requires IsKey(key)
    ensures AssignedKey(key + "=" + rest) == key
  {
    KeyShape(key);
    var line := key + "=" + rest;
    FieldsAfterKey(key, '=', rest);
    assert Fields(line, '=')[0] == key;
    assert line[..2] == key[..2];
    assert |line| - |Chomp(line)| <= 2;
  }

  /** A text without "=" that is not skipped is its own only field. */
  lemma UnsplitLine(t: string)
    requires '=' !in t && t != [] && t[0] != '/' && |t| >= 3
    ensures !IsSkipped(t) && Split(t, '=') == [t]
  {
    FieldsNoSeparator(t, '=');
    assert Split(t, '=') == DropTrailingEmpty([t]);
    assert t[..2][0] == t[0];
    assert |t| - |Chomp(t)| <= 2;
  }

  /** A key alone, on a last line without "\n", names that key too. */
  lemma KeyAloneNamesKey(key: string)
    requires IsKey(key)
    ensures AssignedKey(key) == key
  {
    KeyShape(key);
    UnsplitLine(key);
  }

  /** A line that names a key sets that one setting and leaves the other
      three as they were; any other line changes nothing. */
  lemma KeyLineAssignsOnlyItsKey(s: Settings, line: string)
    ensures AssignedKey(line) == "" ==> ApplyLine(s, line) == s
    ensures AssignedKey(line) == NOTIFY_DELAY_KEY ==>
      ApplyLine(s, line) == s.(notifyDelay := ToI(ValueOf(line)))
    ensures AssignedKey(line) == ENABLE_NOTIFY_KEY ==>
      ApplyLine(s, line) == s.(enableNotify := Chomp(ValueOf(line)) == "TRUE")
    ensures AssignedKey(line) == INITIAL_TIMER_KEY ==>
      ApplyLine(s, line) == s.(countdownTimer := ToI(ValueOf(line)))
    ensures AssignedKey(line) == PERSISTENT_TIMER_KEY ==>
      ApplyLine(s, line) == s.(persistentTimer := Chomp(ValueOf(line)) == "TRUE")
  {
    KeyLineParse(line);
  }

  /** Assignments applied in order. */
  function AssignAll(s: Settings, asg: seq<Assignment>): Settings
    decreases |asg|
  {
    if asg == [] then s else Assign(AssignAll(s, asg[..|asg| - 1]), asg[|asg| - 1])
  }

  /** Running the loop is applying, in order, what each line parses to. */
  lemma {:induction false} ApplyLinesParsed(s: Settings, ls: seq<string>, asg: seq<Assignment>)
    requires |ls| == |asg|
    requires forall i :: 0 <= i < |ls| ==> Parse(ls[i]) == asg[i]
    ensures ApplyLines(s, ls) == AssignAll(s, asg)
    decreases |ls|
  {
    if ls != [] {
      ApplyLinesParsed(s, ls[..|ls| - 1], asg[..|asg| - 1]);
    }
  }

  // ---------------------------------------------------------------------
  // The default configuration text
  // ---------------------------------------------------------------------

  lemma LineShaped(body: string, last: bool)
    requires '\n' !in body
    ensures IsLine(Line(body), last)
  {
    forall j | 0 <= j < |body| ensures Line(body)[j] != '\n' {
      assert Line(body)[j] == body[j];
    }
  }

  /** A comment line: read as one line and passed over. */
  lemma CommentLine(body: string)
    requires '\n' !in body && |body| >= 2 && body[0] == '/' && body[1] == '/'
    ensures IsLine(Line(body), false) && IsSkipped(Line(body))
  {
    LineShaped(body, false);
    assert Line(body)[..2] == "//";
  }

  lemma NoNewlineConcat(a: string, b: string)
    requires '\n' !in a && '\n' !in b
    ensures '\n' !in a + b
  {
    assert forall j :: 0 <= j < |a + b| ==> (a + b)[j] == if j < |a| then a[j] else b[j - |a|];
  }

  /** A key line `KEY=value` is read as one line. */
  lemma KeyLineShaped(key: string, value: string)
    requires IsKey(key) && '\n' !in value
    ensures IsLine(Line(key + "=" + value), false)
  {
    var body := key + "=" + value;
    assert '\n' !in key;
    forall j | 0 <= j < |body|
      ensures body[j] != '\n'
    {
      if j < |key| { assert body[j] == key[j]; }
      else if j > |key| { assert body[j] == value[j - |key| - 1]; }
    }
    LineShaped(key + "=" + value, false);
  }

  /** A key line `KEY=value` names KEY and its value is `value` with its "\n". */
  lemma KeyLine(key: string, value: string)
    requires IsKey(key) && '=' !in value && '\n' !in value
    ensures IsLine(Line(key + "=" + value), false)
    ensures AssignedKey(Line(key + "=" + value)) == key
    ensures !RaisesOn(Line(key + "=" + value))
    ensures ValueOf(Line(key + "=" + value)) == value + "\n"
  {
    var line := Line(key + "=" + value);
    KeyLineShaped(key, value);
    assert line == key + ['='] + (value + "\n");
    assert '=' !in value + "\n";
    SplitKeyValue(key, '=', value + "\n");
    assert line[..2] == key[..2];
    assert |line| - |Chomp(line)| <= 2;
  }

  /** A line that is passed over assigns nothing and cannot raise. */
  lemma SkippedLine(line: string)
    requires IsSkipped(line)
    ensures !RaisesOn(line) && Parse(line) == NoAssignment
  {
  }

  lemma NotifyDelayHelpOneLine()
    ensures '\n' !in NOTIFY_DELAY_HELP
  {
    NoNewlineConcat("//NOTIFY DELAY=<number> being number ", "in the range 60-1200 seconds");
  }

  lemma EnableNotifyHelpOneLine()
    ensures '\n' !in ENABLE_NOTIFY_HELP
  {
    NoNewlineConcat("//ENABLE NOTIFY=TRUE/FALSE anything ", "other than that means false.");
  }

  lemma InitialTimerHelpOneLine()
    ensures '\n' !in INITIAL_TIMER_HELP
  {
    NoNewlineConcat("//INITIAL TIMER=<number> the initial ", "countdown timer");
  }

  lemma PersistentTimerHelpOneLine()
    ensures '\n' !in PERSISTENT_TIMER_HELP
  {
    NoNewlineConcat("//PERSISTENT TIMER=TRUE/FALSE anything ", "other than that means false.");
  }

  lemma DefaultComment0()
    ensures IsLine(Line(CONFIG_INTRO), false) && IsSkipped(Line(CONFIG_INTRO))
  {
    CommentLine(CONFIG_INTRO);
  }

  lemma DefaultComment1()
    ensures IsLine(Line(NOTIFY_DELAY_HELP), false) && IsSkipped(Line(NOTIFY_DELAY_HELP))
  {
    NotifyDelayHelpOneLine();
    CommentLine(NOTIFY_DELAY_HELP);
  }

  lemma DefaultComment2()
    ensures IsLine(Line(ENABLE_NOTIFY_HELP), false) && IsSkipped(Line(ENABLE_NOTIFY_HELP))
  {
    EnableNotifyHelpOneLine();
    CommentLine(ENABLE_NOTIFY_HELP);
  }

  lemma DefaultComment3()
    ensures IsLine(Line(INITIAL_TIMER_HELP), false) && IsSkipped(Line(INITIAL_TIMER_HELP))
  {
    InitialTimerHelpOneLine();
    CommentLine(INITIAL_TIMER_HELP);
  }

  lemma DefaultComment4()
    ensures IsLine(Line(PERSISTENT_TIMER_HELP), false) && IsSkipped(Line(PERSISTENT_TIMER_HELP))
  {
    PersistentTimerHelpOneLine();
    CommentLine(PERSISTENT_TIMER_HELP);
  }

  lemma DefaultBlankLine()
    ensures IsLine(Line(""), false) && IsSkipped(Line(""))
  {
    LineShaped("", false);
    assert Chomp(Line("")) == "";
  }

  lemma ThreeHundred()
    ensures ToI("300" + "\n") == 300
  {
    assert IntToS(300) == "300" by {
      assert NatToS(3) == "3";
      assert NatToS(30) == "30";
    }
    ToIOfIntToS(300, "\n");
  }

  lemma Thirty()
    ensures ToI("30" + "\n") == 30
  {
    assert IntToS(30) == "30" by {
      assert NatToS(3) == "3";
    }
    ToIOfIntToS(30, "\n");
  }

  lemma FalseValue()
    ensures Chomp("FALSE" + "\n") != "TRUE"
  {
    assert "FALSE" + "\n" == "FALSE\n";
    assert Chomp("FALSE\n") == "FALSE";
  }

  lemma DefaultNotifyDelayLine()
    ensures IsLine(DEFAULT_CONFIG_LINES[6], false) && !RaisesOn(DEFAULT_CONFIG_LINES[6])
    ensures Parse(DEFAULT_CONFIG_LINES[6]) == SetNotifyDelay(300)
  {
    KeyLine(NOTIFY_DELAY_KEY, "300");
    KeyLineParse(DEFAULT_CONFIG_LINES[6]);
    ThreeHundred();
  }

  lemma DefaultEnableNotifyLine()
    ensures IsLine(DEFAULT_CONFIG_LINES[7], false) && !RaisesOn(DEFAULT_CONFIG_LINES[7])
    ensures Parse(DEFAULT_CONFIG_LINES[7]) == SetEnableNotify(false)
  {
    KeyLine(ENABLE_NOTIFY_KEY, "FALSE");
    KeyLineParse(DEFAULT_CONFIG_LINES[7]);
    FalseValue();
  }

  lemma DefaultInitialTimerLine()
    ensures IsLine(DEFAULT_CONFIG_LINES[8], false) && !RaisesOn(DEFAULT_CONFIG_LINES[8])
    ensures Parse(DEFAULT_CONFIG_LINES[8]) == SetInitialTimer(30)
  {
    KeyLine(INITIAL_TIMER_KEY, "30");
    KeyLineParse(DEFAULT_CONFIG_LINES[8]);
    Thirty();
  }

  lemma DefaultPersistentTimerLine()
    ensures IsLine(DEFAULT_CONFIG_LINES[9], false) && !RaisesOn(DEFAULT_CONFIG_LINES[9])
    ensures Parse(DEFAULT_CONFIG_LINES[9]) == SetPersistentTimer(false)
  {
    KeyLine(PERSISTENT_TIMER_KEY, "FALSE");
    KeyLineParse(DEFAULT_CONFIG_LINES[9]);
    FalseValue();
  }

  /** What the ten default lines assign, in order. */
  const DEFAULT_ASSIGNMENTS: seq<Assignment> := [
    NoAssignment, NoAssignment, NoAssignment, NoAssignment, NoAssignment, NoAssignment,
    SetNotifyDelay(300), SetEnableNotify(false), SetInitialTimer(30), SetPersistentTimer(false)
  ]

  lemma DefaultAssignmentsGiveDefaults(s: Settings)
    ensures AssignAll(s, DEFAULT_ASSIGNMENTS) == DEFAULTS
  {
    var A := DEFAULT_ASSIGNMENTS;
    assert A[..1][..0] == [];
    assert AssignAll(s, A[..1]) == s;
    assert A[..2][..1] == A[..1];
    assert AssignAll(s, A[..2]) == s;
    assert A[..3][..2] == A[..2];
    assert AssignAll(s, A[..3]) == s;
    assert A[..4][..3] == A[..3];
    assert AssignAll(s, A[..4]) == s;
    assert A[..5][..4] == A[..4];
    assert AssignAll(s, A[..5]) == s;
    assert A[..6][..5] == A[..5];
    assert AssignAll(s, A[..6]) == s;
    assert A[..7][..6] == A[..6];
    assert AssignAll(s, A[..7]) == s.(notifyDelay := 300);
    assert A[..8][..7] == A[..7];
    assert AssignAll(s, A[..8]) == s.(notifyDelay := 300, enableNotify := false);
    assert A[..9][..8] == A[..8];
    assert AssignAll(s, A[..9]) == s.(notifyDelay := 300, enableNotify := false, countdownTimer := 30);
    assert A[..9] == A[..|A| - 1];
  }

  /** Ten lines read back as themselves when each ends in "\n" and holds no
      other "\n". */
  lemma TenLinesReadBack(ls: seq<string>)
    requires |ls| == 10
    requires IsLine(ls[0], false) && IsLine(ls[1], false) && IsLine(ls[2], false)
    requires IsLine(ls[3], false) && IsLine(ls[4], false) && IsLine(ls[5], false)
    requires IsLine(ls[6], false) && IsLine(ls[7], false) && IsLine(ls[8], false)
    requires IsLine(ls[9], false)
    ensures LinesShaped(ls) && Lines(Concat(ls)) == ls
  {
    LinesOfConcat(ls);
  }

  /** The comment lines and the blank line of the default text are lines. */
  lemma DefaultCommentLinesShaped()
    ensures IsLine(DEFAULT_CONFIG_LINES[0], false) && IsLine(DEFAULT_CONFIG_LINES[1], false)
    ensures IsLine(DEFAULT_CONFIG_LINES[2], false) && IsLine(DEFAULT_CONFIG_LINES[3], false)
    ensures IsLine(DEFAULT_CONFIG_LINES[4], false) && IsLine(DEFAULT_CONFIG_LINES[5], false)
  {
    DefaultComment0();
    DefaultComment1();
    DefaultComment2();
    DefaultComment3();
    DefaultComment4();
    DefaultBlankLine();
  }

  /** The key lines of the default text are lines. */
  lemma DefaultKeyLinesShaped()
    ensures IsLine(DEFAULT_CONFIG_LINES[6], false) && IsLine(DEFAULT_CONFIG_LINES[7], false)
    ensures IsLine(DEFAULT_CONFIG_LINES[8], false) && IsLine(DEFAULT_CONFIG_LINES[9], false)
  {
    KeyLineShaped(NOTIFY_DELAY_KEY, "300");
    KeyLineShaped(ENABLE_NOTIFY_KEY, "FALSE");
    KeyLineShaped(INITIAL_TIMER_KEY, "30");
    KeyLineShaped(PERSISTENT_TIMER_KEY, "FALSE");
  }

  /** The default text is read back by IO#gets as exactly its ten lines. */
  lemma DefaultTextLines()
    ensures Lines(DEFAULT_CONFIG_TEXT) == DEFAULT_CONFIG_LINES
  {
    DefaultCommentLinesShaped();
    DefaultKeyLinesShaped();
    TenLinesReadBack(DEFAULT_CONFIG_LINES);
  }

  /** The five comment lines and the blank line of the default text assign
      nothing and cannot raise. */
  lemma DefaultCommentLinesAreSkipped()
    ensures forall i :: 0 <= i < 6 ==> IsSkipped(DEFAULT_CONFIG_LINES[i])
  {
    forall i | 0 <= i < 6
      ensures IsSkipped(DEFAULT_CONFIG_LINES[i])
    {
      if i == 0 { DefaultComment0(); }
      else if i == 1 { DefaultComment1(); }
      else if i == 2 { DefaultComment2(); }
      else if i == 3 { DefaultComment3(); }
      else if i == 4 { DefaultComment4(); }
      else { DefaultBlankLine(); }
    }
  }

  lemma DefaultCommentLinesSkipped()
    ensures forall i :: 0 <= i < 6 ==>
      !RaisesOn(DEFAULT_CONFIG_LINES[i]) && Parse(DEFAULT_CONFIG_LINES[i]) == NoAssignment
  {
    DefaultCommentLinesAreSkipped();
    forall i | 0 <= i < 6
      ensures !RaisesOn(DEFAULT_CONFIG_LINES[i]) && Parse(DEFAULT_CONFIG_LINES[i]) == NoAssignment
    {
      SkippedLine(DEFAULT_CONFIG_LINES[i]);
    }
  }

  /** No line of the default text raises, and the lines assign
      DEFAULT_ASSIGNMENTS. */
  lemma DefaultTextParses()
    ensures NoneRaise(DEFAULT_CONFIG_LINES)
    ensures forall i :: 0 <= i < |DEFAULT_CONFIG_LINES| ==> Parse(DEFAULT_CONFIG_LINES[i]) == DEFAULT_ASSIGNMENTS[i]
  {
    DefaultCommentLinesSkipped();
    forall i | 6 <= i < |DEFAULT_CONFIG_LINES|
      ensures !RaisesOn(DEFAULT_CONFIG_LINES[i])
      ensures Parse(DEFAULT_CONFIG_LINES[i]) == DEFAULT_ASSIGNMENTS[i]
    {
      if i == 6 { DefaultNotifyDelayLine(); }
      else if i == 7 { DefaultEnableNotifyLine(); }
      else if i == 8 { DefaultInitialTimerLine(); }
      else { DefaultPersistentTimerLine(); }
    }
  }

  /** The default text read back gives the default settings, whatever was set
      before, and no line of it raises. */
  lemma DefaultTextGivesDefaults(s: Settings)
    ensures !ReadRaises(Readable(DEFAULT_CONFIG_TEXT))
    ensures ApplyLines(s, Lines(DEFAULT_CONFIG_TEXT)) == DEFAULTS
  {
    DefaultTextLines();
    DefaultTextParses();
    ApplyLinesParsed(s, DEFAULT_CONFIG_LINES, DEFAULT_ASSIGNMENTS);
    DefaultAssignmentsGiveDefaults(s);
  }

  /** The first run writes the default file and keeps the defaults; every later
      run reads that file and arrives at the same defaults. */
  lemma DefaultFileAgreesWithDefaults(s: Settings)
    ensures Load(DEFAULTS, Absent) == DEFAULTS
    ensures !ReadRaises(ConfigAfterLoad(Absent))
    ensures Load(s, ConfigAfterLoad(Absent)) == DEFAULTS
  {
    DefaultTextGivesDefaults(s);
  }
}
