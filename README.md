# CountdownI countdown core, in Dafny

CountdownI is a tray indicator that counts down to a target moment. Its icon
turns from blue to orange to red to black as the time runs out. Optionally,
the target is kept in a restore file so the countdown continues across
launches. This project models the part of `CountdownI_Class` that does the
counting, the configuration and the persistence. That is:

- the defaults set by `initialize`;
- `read_config`: the configuration file `./Config/CountdownI.config`, read
  line by line, then the range check;
- `set_timer` and `write_restore_file`: the restore file `./countdown.restore`;
- `update_timer` and its icon cascade over `BLUE_ICON_RANGE` = 600 and
  `ORANGE_ICON_RANGE` = 300.

The model has four modules, one file each:

- `RubyText` (`ruby_text.dfy`): the Ruby built-ins the code relies on, with
  Ruby's semantics written out.
  - `IO#gets` line splitting: lines keep their `"\n"`.
  - `String#start_with?` and `String#chomp`.
  - `String#split`: trailing empty fields are dropped.
  - `String#to_i`: leading white space, a sign, digits with single
    underscores, and 0 when there is no digit.
  - `Integer#to_s`.
- `Config` (`config.dfy`): `read_config` as functions of the file and of the
  settings held before it runs.
  - The parse of one line (`Parse`) and the fold over the lines (`ApplyLines`).
  - Which lines raise (`RaisesOn`).
  - The range check (`Validate`) and the whole load (`Load`).
  - The default configuration text the program writes.
- `Timer` (`timer.dfy`): `set_timer`, `write_restore_file` and `update_timer`
  as functions of the timer values, the clock reading `now` and the restore
  file, plus the icon tiers.
- `Indicator` (`indicator.dfy`): the class `Countdown`. Its fields are the
  instance variables `@notify_delay`, `@enable_notify`, `@countdown_timer`,
  `@persistent_timer` and `@target_timer`. Its methods update them in place
  with the source's loops, and each is proved to leave the state described by
  the functions of `Config` and `Timer`.

How the process ends is an `Outcome`:

- `Ok`: the method returns;
- `Exit(1)`: `exit(1)`;
- `Uncaught("NoMethodError")`: an exception that nothing rescues.

`@target_timer` is `Option<int>`, because it is nil until `set_timer` assigns
it. A file on disk is modelled by its state and its text:

- the configuration file is `Absent`, `Unreadable` or `Readable(text)`;
- the restore file is `Missing` or `Present(text, readable, writable)`.

Behaviour the model makes explicit:

- A configuration line `ENABLE NOTIFY` or `PERSISTENT TIMER` with no second
  `=`-field makes `param_value_list[1].chomp` raise `NoMethodError`. The lines
  before it have already been applied, and the range check does not run.
- `split` keeps the `"\n"` in the last field. So only the file's last line,
  when it lacks a final `"\n"`, can raise (`Config.OnlyLastLineRaises`).
- A `NOTIFY DELAY` or `INITIAL TIMER` line with no value calls `nil.to_i`. That
  gives 0 and does not raise; the range check then replaces the 0.
- A readable restore file with no line leaves `@target_timer` nil. Then
  `@target_timer - Time.new.to_i` raises `NoMethodError`.
- `write_restore_file` writes `@target_timer.to_s` with no newline. The read
  loop keeps the `to_i` of the last line.
- `set_timer` calls `write_restore_file` only when the restore file is
  missing. So the "not writable" exit of `write_restore_file` cannot be
  reached from `set_timer`: `Timer.StartTimer` exits only on an unreadable
  file.

Further facts about the code that the model follows:

- The comment at CountdownI.rb:16-17 leaves exactly 10 and exactly 5 minutes
  in no tier and puts black at 0. The code's strict comparisons make exactly
  600 seconds orange, exactly 300 red, and every countdown of 0 or less black
  (`Timer.IconFor`).
- The code has no routine that deletes the restore file.
- The code sends no notification.
- The countdown is not clamped at 0, so it goes negative after the target.
- A key line is split at every `=`, and the value is the second field, not the
  rest of the line.
- Values are only chomped, never trimmed of other white space.

## Model

| member | source | states |
|---|---|---|
| Indicator.Countdown.constructor | CountdownI.rb:57-60 | a new instance holds the defaults 300, false, 30, false, and no target |
| Indicator.Countdown.ReadConfig | CountdownI.rb:64-118 | an absent file is created with the default text; it raises NoMethodError exactly when a line raises; when it returns, the settings are `Load` of the old ones and in range; when it raises, the settings are the lines before the first raising line applied, with no range check; the target is untouched |
| Indicator.Countdown.ReadLines | CountdownI.rb:72-96 | the `while gets` loop applies the lines in order and stops at the first raising line, having applied exactly the lines before it |
| Indicator.Countdown.ReadLine | CountdownI.rb:73-94 | one loop pass raises exactly when `RaisesOn` holds, assigning nothing; otherwise it leaves `ApplyLine` of the old settings |
| Indicator.Countdown.CheckRanges | CountdownI.rb:112-117 | the in-place range check leaves `Validate` of the old settings |
| Config.Validate | CountdownI.rb:112-117 | the result is in range; an in-range delay or a positive countdown is kept; an out-of-range delay becomes 300 and a countdown of 0 or less becomes 30; the switches are kept |
| Config.Load | CountdownI.rb:64-118 | the result is in range whatever the file holds; for an absent or unreadable file it is the range-checked old settings |
| Config.ConfigAfterLoad | CountdownI.rb:101-109 | an absent file is written with the default text; any other file is left as it is |
| Config.FirstRaising | CountdownI.rb:72-96 | the index of the first raising line: no line before it raises, the line at it does, and it equals the line count exactly when no line raises |
| Config.Parse | CountdownI.rb:77-94 | the `case` on the first field: a line assigns nothing exactly when it names no key; what it assigns is pinned by `KeyLineAssignsOnlyItsKey` and `LastOccurrenceWins` |
| Config.ApplyLine | CountdownI.rb:73-94 | one pass of the loop body: the assignment `Parse` gives, applied to the settings; pinned by `KeyLineAssignsOnlyItsKey` and `IgnoredLinesKeepSettings` |
| Config.ApplyLines | CountdownI.rb:72-96 | the loop body applied to each line in order; pinned by `ApplyLinesStep`, `ApplyLinesAppend`, `ApplyLinesParsed` and `LastOccurrenceWins` |
| Config.AssignedKey | CountdownI.rb:73-77 | the first `=`-field of a line that is not skipped, when it is exactly one of the four keys, else ""; its contract says the result is a key or ""; `AssignedKeyIsFirstField`, `KeyLineNamesKey` and `KeyAloneNamesKey` characterise it both ways |
| Config.IsSkipped | CountdownI.rb:73 | the line starts with `//` or is empty after `chomp`; such lines assign nothing and raise nothing (`SkippedLine`) |
| Config.ValueOf | CountdownI.rb:79-89 | the second `=`-field, or "" when there is none, so that `ToI("")` gives the 0 of `nil.to_i`; `KeyLine` fixes it for `KEY=value` lines |
| Config.RaisesOn | CountdownI.rb:80-89 | a switch line whose split has no second field, so `nil.chomp` raises; pinned by `LineWithNewlineNeverRaises`, `OnlyLastLineRaises` and `FirstRaising` |
| Config.KeyLine | CountdownI.rb:73-89 | a `KEY=value` line with "\n" and no "=" or "\n" in the value is one `gets` line, names that key, raises nothing, and has value `value + "\n"` |
| Config.AssignedKeyIsFirstField | CountdownI.rb:73-77 | a line that names a key is not skipped and is either that key alone or begins with that key and "=" |
| Config.KeyLineNamesKey | CountdownI.rb:73-77 | conversely, every line beginning with one of the four keys and "=" names that key, whatever follows |
| Config.KeyAloneNamesKey | CountdownI.rb:73-77 | a last line holding only a key, with no "\n", names that key too |
| Config.ApplyLinesAppend | CountdownI.rb:72-96 | reading `a + b` is reading `a`, then `b` |
| Config.ApplyLinesStep | CountdownI.rb:72-96 | one more pass of the loop applies the next line |
| Config.IgnoredLinesKeepSettings | CountdownI.rb:73-94 | comment lines, blank lines and lines with an unknown or inexact key raise nothing and leave every setting unchanged (the `case` has no `else`) |
| Config.SkippedLine | CountdownI.rb:73 | a line starting with `//` or blank after chomp assigns nothing and cannot raise |
| Config.UnnamedSettingsKept | CountdownI.rb:77-94 | lines that do not name a key leave that key's setting unchanged |
| Config.LastOccurrenceWins | CountdownI.rb:77-93 | when a key repeats, its last line decides: a number is that line's `to_i`, a switch is true exactly when the chomped value is "TRUE" |
| Config.KeyLineAssignsOnlyItsKey | CountdownI.rb:77-93 | a line naming a key changes that one setting, to `to_i` of the value for numbers and to "chomped value is TRUE" for switches, and leaves the other three as they were; a line naming no key changes nothing |
| Config.LineWithNewlineNeverRaises | CountdownI.rb:74-89 | a line ending in "\n" never raises, because split keeps the "\n" as a second field |
| Config.OnlyLastLineRaises | CountdownI.rb:72-89 | only the last line of a file can raise |
| Config.ApplyLinesParsed | CountdownI.rb:72-96 | reading lines is applying, in order, what each line parses to |
| Config.DefaultTextLines | CountdownI.rb:106 | the default text is read back by `gets` as its ten lines |
| Config.DefaultTextParses | CountdownI.rb:106 | no line of the default text raises; its five comments and the blank line assign nothing; its key lines assign 300, false, 30, false |
| Config.DefaultTextGivesDefaults | CountdownI.rb:106 | reading the default text, from any settings, gives exactly the defaults of `initialize`, and raises nothing |
| Config.DefaultFileAgreesWithDefaults | CountdownI.rb:102-109 | the first run, with no file, keeps the defaults; every later run reads the file the first run wrote and arrives at the same defaults |
| RubyText.Chomp | CountdownI.rb:73 | chomp removes a trailing "\r\n" when there is one, else a trailing "\n" or "\r", else nothing; so a text ending in a line break always gets shorter |
| RubyText.ChompLine | CountdownI.rb:73 | chomp gives back the text of a line that `gets` returned with its "\n", unless that text itself ends in "\r" |
| RubyText.Lines | CountdownI.rb:72 | the lines successive `gets` calls return, also for the restore file at CountdownI.rb:144; pinned by `LinesSplitText`, `LinesOfConcat` and `LineEndsInNewline` |
| RubyText.LineEndsInNewline | CountdownI.rb:72 | every line `gets` returns except the last ends in "\n" |
| RubyText.StartsWith | CountdownI.rb:73 | `start_with?`: the text is at least as long as the prefix and begins with it |
| RubyText.Split | CountdownI.rb:74 | `split("=")`: the fields between separators with trailing empty fields dropped; pinned by `FieldsJoin`, `FieldsLast` and `SplitKeyValue` |
| RubyText.LinesSplitText | CountdownI.rb:72 | the lines `gets` yields concatenate to the text, and each line ends in "\n" except perhaps the last |
| RubyText.LinesOfConcat | CountdownI.rb:72 | text made of well-formed lines is read back as exactly those lines |
| RubyText.FieldsJoin | CountdownI.rb:74 | the fields of split hold no "=", and joining them with "=" gives the line back |
| RubyText.FieldsLast | CountdownI.rb:74 | split drops no field of a text that does not end in the separator |
| RubyText.SplitKeyValue | CountdownI.rb:74 | `KEY=value` with no "=" in the key or the value, and a non-empty value, splits into the key and the value |
| RubyText.ToI | CountdownI.rb:79 | `to_i` in base 10, also at CountdownI.rb:87 and 145: white space skipped, an optional sign, then the leading digit run; pinned by `ToIWithoutDigits`, `ToISkipsSpace`, `ToISign`, `ToIOfIntToS` and the `LeadingDigits` lemmas |
| RubyText.ToIWithoutDigits | CountdownI.rb:79 | with no digit after the white space and the optional sign, `to_i` is 0 |
| RubyText.ToISkipsSpace | CountdownI.rb:79 | leading white space does not change what `to_i` reads |
| RubyText.ToISign | CountdownI.rb:79 | a "-" before digits negates the number read, and a "+" leaves it unchanged |
| RubyText.LeadingDigits | CountdownI.rb:79 | the digit run `to_i` reads: digits only, no longer than the text, empty exactly when the text does not start with a digit; pinned by the four `LeadingDigits` lemmas below |
| RubyText.LeadingDigitsOfDigits | CountdownI.rb:79 | the digit run `to_i` reads is the whole maximal run of digits at the front, when neither a digit nor "_" follows it |
| RubyText.LeadingDigitsDigitPrefix | CountdownI.rb:79 | digits followed by a digit are read through: the run read from `d + tail` is `d` followed by the run read from `tail` |
| RubyText.LeadingDigitsJoinsUnderscore | CountdownI.rb:79 | one "_" between two digit runs is dropped and the run goes on ("1_000" reads as 1000) |
| RubyText.LeadingDigitsStopsAtUnderscore | CountdownI.rb:79 | a "_" that no digit follows ends the run ("1_", "1__0" and "1_x" read as 1) |
| RubyText.ToIOfIntToS | CountdownI.rb:145 | `n.to_s.to_i == n` for every integer, also when a line end or other non-digit follows |
| RubyText.IntToS | CountdownI.rb:194 | `Integer#to_s` in base 10, also at CountdownI.rb:182: never empty and without "\n"; `ToIOfIntToS` and `LinesOfIntToS` make it the inverse of the read |
| RubyText.LinesOfIntToS | CountdownI.rb:194 | a number written with `to_s` is read back by `gets` as a single line |
| Timer.Index | CountdownI.rb:38-41 | the position of each icon in `@indicator_icons`: black 0, blue 1, orange 2, red 3 |
| Timer.IconFor | CountdownI.rb:203-211 | blue exactly above 600, orange in 301..600, red in 1..300, black at 0 or below; the `@indicator_icons` index it shows is 1, 2, 3 and 0 in those tiers |
| Timer.IconNeverBrightens | CountdownI.rb:203-211 | less time left never shows an icon of a higher tier |
| Timer.TargetText | CountdownI.rb:182 | `@target_timer.to_s` is empty exactly when the target is nil |
| Timer.RestoredTarget | CountdownI.rb:144-146 | the restore loop leaves the `to_i` of the last line, or the old target when there is no line |
| Timer.WriteRestore | CountdownI.rb:173-198 | it returns exactly when the file is missing or writable, and then the file holds the target's `to_s` and keeps its permissions; otherwise it exits with status 1 and the file is unchanged |
| Timer.TargetTextReadsBack | CountdownI.rb:144-146 | a target's decimal text, read by the restore loop, gives the target back |
| Timer.WrittenTargetReadsBack | CountdownI.rb:192-196 | a target that `write_restore_file` wrote is what the restore loop reads back |
| Timer.StartTimer | CountdownI.rb:120-171 | when it returns, the target is `now` plus the countdown; it exits with status 1 exactly on an unreadable restore file, changing nothing; it raises exactly on a readable file with no line and no earlier target; without persistence, or with an existing file, the file is untouched |
| Timer.NonPersistentStart | CountdownI.rb:124-127 | without persistence the target is `now + countdown` and the restore file is neither read nor written |
| Timer.FreshPersistentStart | CountdownI.rb:158-168 | with persistence and no restore file, the target `now + countdown` is computed and written as its decimal text |
| Timer.RestoreReadsTarget | CountdownI.rb:137-148 | a readable restore file holding a target's text restores that target, whatever was set before, and the countdown becomes `target - now` |
| Timer.PersistentRoundTrip | CountdownI.rb:137-168 | a later persistent start reads back the exact target the first start wrote, and its countdown is the time left until it |
| Timer.UnreadableRestoreExits | CountdownI.rb:139-157 | an existing unreadable restore file exits with status 1 and changes no target and no file |
| Timer.UnwritableRestoreExits | CountdownI.rb:175-188 | an existing unwritable restore file exits with status 1 and is left as it was |
| Timer.EmptyRestoreFileRaises | CountdownI.rb:142-148 | an empty restore file read with no earlier target raises NoMethodError |
| Timer.Tick | CountdownI.rb:200-212 | with a target, the countdown becomes `target - now`, unclamped, and the icon is its tier; with none, it raises before changing anything |
| Timer.CountdownNeverIncreases | CountdownI.rb:200-211 | for a fixed target, a later tick shows no more time left and no higher icon tier |
| Timer.TickAfterStart | CountdownI.rb:200-201 | after a start that returned, a tick `elapsed` seconds later shows the start's countdown minus `elapsed` |
| Indicator.Countdown.SetTimer | CountdownI.rb:120-171 | the timer fields and the restore file afterwards are those of `StartTimer`, with the read loop over the restore lines; the settings are unchanged |
| Indicator.Countdown.WriteRestoreFile | CountdownI.rb:173-198 | the outcome and the restore file afterwards are those of `WriteRestore`; no field changes |
| Indicator.Countdown.UpdateTimer | CountdownI.rb:200-212 | the countdown, the outcome and the icon are those of `Tick`; no other field changes |

## Left out

- GTK and AppIndicator setup, the menu, and the `set_icon`/`set_label`/`set_status` calls are left out. They bind a toolkit that is not part of this model. The icon chosen is returned as an `Icon`, and `Timer.Index` gives its position 0-3 in `@indicator_icons`.
- The `File.realpath` lookups of the icons and of the `./Config` directory are left out. So is the exception `File.realpath` raises when `./Config` is missing.
- The `GLib::Timeout` once-a-second callback and `Gtk.main` are event-loop plumbing. `update_timer` is modelled as one step for a given `now`.
- `debug` and `puts` only write to standard output, so they are not modelled.
- The file system and the clock are inputs, not effects. The files are values with flags, and `Time.new.to_i` is the parameter `now`. One `set_timer` call reads the clock once, although the Ruby code calls `Time.new` again for its log lines. A restore file created by the program is assumed readable and writable. Failures of `File.open` or `write` themselves are not modelled.
- Two process instances sharing the restore file at the same time are not modelled.
- `RubyText.ToI` follows `String#to_i` in base 10 but does not accept the `0d` prefix that Ruby's `to_i` skips.
- `RubyText.IsSpace` takes the white space `to_i` skips to be the six ASCII characters of C's `isspace`; no other character is treated as white space.
- Notifications (`@notify_delay`, `@enable_notify`) are read and validated but never used, because the code sends none.
- Files are modelled as the characters `gets` and `write` see. Their byte encoding, and text that is not valid in it, are not modelled.
- `File.exists?`, which `read_config` calls at CountdownI.rb:65, was removed in Ruby 3.2, where that call raises `NoMethodError`. The model follows the Ruby versions that still have it, where it is `File.exist?`.
- `Config.DEFAULT_CONFIG_LINES` spells the longer comment lines as two string literals joined, and builds the key lines from the key constants. The characters are those that the code writes.
