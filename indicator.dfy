/**
 * The indicator instance: the five instance variables the countdown uses and
 * the methods that update them in place, each proved to leave the state that
 * the functions in Config and Timer describe.
 */
module Indicator {
  import opened RubyText
  import opened Config
  import opened Timer

  class Countdown {
    /** Seconds between notifications. */
    var notifyDelay: int
    var enableNotify: bool
    /** Seconds left. */
    var countdownTimer: int
    /** Whether the target is kept in the restore file across launches. */
    var persistentTimer: bool
    /** Epoch second at which the countdown ends; nil until `set_timer` runs. */
    var targetTimer: Option<int>

    /** The four settings `read_config` may overwrite. */
    function Values(): Settings
      reads this
    {
      Settings(notifyDelay, enableNotify, countdownTimer, persistentTimer)
    }

    /** The defaults `initialize` sets; `@target_timer` is not assigned. */
    constructor ()
      ensures Values() == DEFAULTS && targetTimer == None
    {
      notifyDelay := 300;
      enableNotify := false;
      countdownTimer := 30;
      persistentTimer := false;
      targetTimer := None;
    }

    /** `read_config`. A file that is absent is created with the default
        text; one that cannot be read is passed over; a readable one is read
        line by line. When no line raises, the settings are those of Load,
        so in range. When a switch line without a value raises, the lines
        before it have already been applied and the range check never runs. */
    method ReadConfig(file: ConfigFile) returns (outcome: Outcome, after: ConfigFile)
      modifies this
      ensures after == ConfigAfterLoad(file)
      ensures outcome.Ok? <==> !ReadRaises(file)
      ensures !outcome.Ok? ==> outcome == Uncaught(NO_METHOD_ERROR)
      ensures outcome.Ok? ==> Values() == Load(old(Values()), file) && InRange(Values())
      ensures !outcome.Ok? ==>
        Values() == ApplyLines(old(Values()), Lines(file.text)[..FirstRaising(Lines(file.text))])
      ensures targetTimer == old(targetTimer)
    {
      outcome := Ok;
      after := file;
      match file {
        case Absent =>
          after := Readable(DEFAULT_CONFIG_TEXT);
        case Unreadable =>
        case Readable(text) =>
          var raised := ReadLines(Lines(text));
          if raised {
            outcome := Uncaught(NO_METHOD_ERROR);
            return;
          }
      }
      CheckRanges();
    }

    /** The `while (line = config_file.gets)` loop over the lines of a
        readable file. It stops at the first line that raises, with the lines
        before it applied; otherwise all lines are applied in order. */
    method ReadLines(lines: seq<string>) returns (raised: bool)
      modifies this
      ensures raised <==> !NoneRaise(lines)
      ensures raised ==> Values() == ApplyLines(old(Values()), lines[..FirstRaising(lines)])
      ensures !raised ==> Values() == ApplyLines(old(Values()), lines)
      ensures targetTimer == old(targetTimer)
    {
      var i := 0;
      while i < |lines|
        invariant 0 <= i <= FirstRaising(lines)
        invariant Values() == ApplyLines(old(Values()), lines[..i])
        invariant targetTimer == old(targetTimer)
      {
        raised := ReadLine(lines[i]);
        if raised {
          assert FirstRaising(lines) == i;
          return;
        }
        ApplyLinesStep(old(Values()), lines, i);
        i := i + 1;
      }
      assert lines[..i] == lines;
      raised := false;
    }

    /** One pass of the read loop: a line that is not skipped is split on
        "=" and its first field matched against the four keys. A switch
        line without a value raises (`nil.chomp`) before assigning. */
    method ReadLine(line: string) returns (raised: bool)
      modifies this
      ensures raised <==> RaisesOn(line)
      ensures raised ==> Values() == old(Values())
      ensures !raised ==> Values() == ApplyLine(old(Values()), line)
      ensures targetTimer == old(targetTimer)
    {
      raised := false;
      KeyLineAssignsOnlyItsKey(Values(), line);
      if !StartsWith(line, "//") && |Chomp(line)| > 0 {
        var fields := Split(line, '=');
        var key := if |fields| > 0 then fields[0] else "";
        assert AssignedKey(line) == if IsKey(key) then key else "";
        if key == NOTIFY_DELAY_KEY {
          notifyDelay := ToI(if |fields| >= 2 then fields[1] else "");
        } else if key == ENABLE_NOTIFY_KEY {
          if |fields| < 2 {
            return true;
          }
          enableNotify := Chomp(fields[1]) == "TRUE";
        } else if key == INITIAL_TIMER_KEY {
          countdownTimer := ToI(if |fields| >= 2 then fields[1] else "");
        } else if key == PERSISTENT_TIMER_KEY {
          if |fields| < 2 {
            return true;
          }
          persistentTimer := Chomp(fields[1]) == "TRUE";
        }
      }
    }

    /** The range check that ends `read_config`, in place. */
    method CheckRanges()
      modifies this
      ensures Values() == Validate(old(Values()))
      ensures targetTimer == old(targetTimer)
    {
      if notifyDelay < 60 || notifyDelay > 1200 {
        notifyDelay := 300;
      }
      if countdownTimer <= 0 {
        countdownTimer := 30;
      }
    }

    /** `set_timer`: the timer values and the restore file afterwards are
        those StartTimer gives; the settings are not touched. */
    method SetTimer(now: int, restore: RestoreFile) returns (outcome: Outcome, restoreAfter: RestoreFile)
      modifies this
      ensures Started(outcome, countdownTimer, targetTimer, restoreAfter)
        == StartTimer(old(persistentTimer), old(countdownTimer), old(targetTimer), now, restore)
      ensures notifyDelay == old(notifyDelay) && enableNotify == old(enableNotify)
      ensures persistentTimer == old(persistentTimer)
    {
      outcome := Ok;
      restoreAfter := restore;
      if !persistentTimer {
        targetTimer := Some(now + countdownTimer);
      } else if restore.Present? {
        if !restore.readable {
          outcome := Exit(1);
          return;
        }
        var lines := Lines(restore.text);
        var i := 0;
        while i < |lines|
          invariant 0 <= i <= |lines|
          invariant targetTimer == RestoredTarget(old(targetTimer), lines[..i])
          invariant countdownTimer == old(countdownTimer)
          invariant Values() == old(Values())
        {
          targetTimer := Some(ToI(lines[i]));
          i := i + 1;
        }
        assert lines[..i] == lines;
        if targetTimer.None? {
          outcome := Uncaught(NO_METHOD_ERROR);
          return;
        }
        countdownTimer := targetTimer.value - now;
      } else {
        targetTimer := Some(now + countdownTimer);
        outcome, restoreAfter := WriteRestoreFile(restore);
      }
    }

    /** `write_restore_file`: writes `@target_timer.to_s`; changes no field. */
    method WriteRestoreFile(restore: RestoreFile) returns (outcome: Outcome, restoreAfter: RestoreFile)
      ensures Written(outcome, restoreAfter) == WriteRestore(targetTimer, restore)
    {
      match restore {
        case Missing =>
          outcome, restoreAfter := Ok, Present(TargetText(targetTimer), true, true);
        case Present(_, _, writable) =>
          if writable {
            outcome, restoreAfter := Ok, restore.(text := TargetText(targetTimer));
          } else {
            outcome, restoreAfter := Exit(1), restore;
          }
      }
    }

    /** `update_timer`: the countdown becomes the time left until the
        target and the icon shown is that of its tier; nothing else changes. */
    method UpdateTimer(now: int) returns (outcome: Outcome, icon: Option<Icon>)
      modifies this
      ensures Ticked(outcome, countdownTimer, icon) == Tick(old(countdownTimer), targetTimer, now)
      ensures Values() == old(Values()).(countdownTimer := countdownTimer)
      ensures targetTimer == old(targetTimer)
    {
      if targetTimer.None? {
        outcome, icon := Uncaught(NO_METHOD_ERROR), None;
        return;
      }
      countdownTimer := targetTimer.value - now;
      if countdownTimer > BLUE_ICON_RANGE {
        icon := Some(Blue);
      } else if countdownTimer > ORANGE_ICON_RANGE {
        icon := Some(Orange);
      } else if countdownTimer > 0 {
        icon := Some(Red);
      } else {
        icon := Some(Black);
      }
      outcome := Ok;
    }
  }
}
