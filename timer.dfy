/**
 * What `set_timer`, `write_restore_file` and `update_timer` compute, as
 * functions of the timer values held before the call, of the clock reading
 * `now` (epoch seconds) and of the restore file `./countdown.restore`.
 */
module Timer {
  import opened RubyText

  datatype Option<T> = None | Some(value: T)

  /** How a call ends: it returns, the process exits with a status, or an
      exception propagates out of it. */
  datatype Outcome = Ok | Exit(status: int) | Uncaught(exception: string)

  /** Raised by a method call on nil (`nil - 1`, `nil.chomp`). */
  const NO_METHOD_ERROR := "NoMethodError"

  const BLUE_ICON_RANGE := 600
  const ORANGE_ICON_RANGE := 300

  /** The restore file: missing, or present with its text and whether the
      process may read and write it. */
  datatype RestoreFile = Missing | Present(text: string, readable: bool, writable: bool)

  // ---------------------------------------------------------------------
  // Icon tiers
  // ---------------------------------------------------------------------

  datatype Icon = Black | Blue | Orange | Red

  /** The icon's position in `@indicator_icons`. */
  function Index(icon: Icon): (n: nat)
    ensures n < 4
  {
    match icon
    case Black => 0
    case Blue => 1
    case Orange => 2
    case Red => 3
  }

  /** How much time the icon signals: none, under five minutes, under ten
      minutes, more. */
  function Level(icon: Icon): (n: nat)
    ensures n < 4
  {
    match icon
    case Black => 0
    case Red => 1
    case Orange => 2
    case Blue => 3
  }

  /** The cascade in `update_timer`: every comparison is strict, so exactly
      600 seconds is orange, exactly 300 red, and 0 or less black. */
  function IconFor(countdown: int): (icon: Icon)
    ensures icon == Blue <==> countdown > BLUE_ICON_RANGE
    ensures icon == Orange <==> ORANGE_ICON_RANGE < countdown <= BLUE_ICON_RANGE
    ensures icon == Red <==> 0 < countdown <= ORANGE_ICON_RANGE
    ensures icon == Black <==> countdown <= 0
    ensures Index(icon) == if countdown > BLUE_ICON_RANGE then 1
      else if countdown > ORANGE_ICON_RANGE then 2
      else if countdown > 0 then 3
      else 0
  {
    if countdown > BLUE_ICON_RANGE then Blue
    else if countdown > ORANGE_ICON_RANGE then Orange
    else if countdown > 0 then Red
    else Black
  }

  /** Less time left never shows a brighter icon. */
  lemma IconNeverBrightens(c1: int, c2: int)
    requires c1 <= c2
    ensures Level(IconFor(c1)) <= Level(IconFor(c2))
  {
  }

  // ---------------------------------------------------------------------
  // The restore file
  // ---------------------------------------------------------------------

  /** `@target_timer.to_s`, where `nil.to_s` is the empty string. */
  function TargetText(target: Option<int>): (s: string)
    ensures target.None? <==> s == ""
  {
    match target
    case Some(t) => IntToS(t)
    case None => ""
  }

  /** `@target_timer` after `while (line = restore_file.gets) @target_timer =
      line.to_i end`, one pass per line in order. */
  function RestoredTarget(before: Option<int>, lines: seq<string>): (r: Option<int>)
    ensures lines == [] ==> r == before
    ensures lines != [] ==> r == Some(ToI(lines[|lines| - 1]))
    decreases |lines|
  {
    if lines == [] then before else RestoredTarget(Some(ToI(lines[0])), lines[1..])
  }

  datatype Written = Written(outcome: Outcome, file: RestoreFile)

  /** `write_restore_file`: an existing file it may write, or a missing one,
      ends up holding the target's decimal text; an existing file it may not
      write makes the process exit with status 1 and stays as it was. */
  function WriteRestore(target: Option<int>, f: RestoreFile): (r: Written)
    ensures r.outcome.Ok? <==> f.Missing? || f.writable
    ensures r.outcome.Ok? ==> r.file.Present? && r.file.text == TargetText(target)
    ensures f.Present? && r.outcome.Ok? ==> r.file == f.(text := TargetText(target))
    ensures !r.outcome.Ok? ==> r == Written(Exit(1), f)
  {
    match f
    case Missing => Written(Ok, Present(TargetText(target), true, true))
    case Present(_, _, writable) =>
      if writable then Written(Ok, f.(text := TargetText(target))) else Written(Exit(1), f)
  }

  /** The decimal text of a target, read by the loop, gives the target back. */
  lemma TargetTextReadsBack(target: int, before: Option<int>)
    ensures RestoredTarget(before, Lines(IntToS(target))) == Some(target)
  {
    LinesOfIntToS(target);
    ToIOfIntToS(target, "");
    assert IntToS(target) + "" == IntToS(target);
  }

  /** A target written to the restore file is what the read loop gets back. */
  lemma WrittenTargetReadsBack(target: int, f: RestoreFile, before: Option<int>)
    requires WriteRestore(Some(target), f).outcome.Ok?
    ensures RestoredTarget(before, Lines(WriteRestore(Some(target), f).file.text)) == Some(target)
  {
    TargetTextReadsBack(target, before);
  }

  // ---------------------------------------------------------------------
  // set_timer
  // ---------------------------------------------------------------------

  datatype Started = Started(outcome: Outcome, countdown: int, target: Option<int>, file: RestoreFile)

  /** `set_timer` from `@persistent_timer`, `@countdown_timer` and
      `@target_timer`. When it returns, the target lies `countdown` seconds
      after `now`; it exits only with status 1 on an unreadable restore file,
      changing nothing; it raises only when a readable restore file has no
      line and there was no target before. */
  function StartTimer(persistent: bool, countdown: int, target: Option<int>, now: int, f: RestoreFile): (r: Started)
    ensures r.outcome.Ok? ==> r.target.Some? && r.target.value == now + r.countdown
    ensures r.outcome.Exit? <==> persistent && f.Present? && !f.readable
    ensures r.outcome.Exit? ==> r == Started(Exit(1), countdown, target, f)
    ensures r.outcome.Uncaught? <==> persistent && f.Present? && f.readable && Lines(f.text) == [] && target.None?
    ensures r.outcome.Uncaught? ==> r == Started(Uncaught(NO_METHOD_ERROR), countdown, None, f)
    ensures f.Present? || !persistent ==> r.file == f
  {
    if !persistent then Started(Ok, countdown, Some(now + countdown), f)
    else
      match f
      case Present(text, readable, _) =>
        if !readable then Started(Exit(1), countdown, target, f)
        else
          var t := RestoredTarget(target, Lines(text));
          if t.None? then Started(Uncaught(NO_METHOD_ERROR), countdown, t, f)
          else Started(Ok, t.value - now, t, f)
      case Missing =>
        var t := Some(now + countdown);
        var w := WriteRestore(t, f);
        Started(w.outcome, countdown, t, w.file)
  }

  /** Without persistence the target is `now + countdown` and the restore file
      is neither read nor written. */
  lemma NonPersistentStart(countdown: int, target: Option<int>, now: int, f: RestoreFile)
    ensures StartTimer(false, countdown, target, now, f) == Started(Ok, countdown, Some(now + countdown), f)
  {
  }

  /** With persistence and no restore file, the target `now + countdown` is
      computed and written as its decimal text. */
  lemma FreshPersistentStart(countdown: int, target: Option<int>, now: int)
    ensures StartTimer(true, countdown, target, now, Missing)
      == Started(Ok, countdown, Some(now + countdown), Present(IntToS(now + countdown), true, true))
  {
  }

  /** A restore file holding a target's decimal text restores that target,
      whatever the countdown and target held before, and the countdown becomes
      the time left until it. */
  lemma RestoreReadsTarget(t: int, countdown: int, target: Option<int>, now: int, writable: bool)
    ensures var f := Present(IntToS(t), true, writable);
      StartTimer(true, countdown, target, now, f) == Started(Ok, t - now, Some(t), f)
  {
    TargetTextReadsBack(t, target);
  }

  /** The persistence round trip: a later start reads back the target the
      first start wrote, so the countdown keeps running across launches. */
  lemma PersistentRoundTrip(c0: int, t0: Option<int>, now0: int, c1: int, t1: Option<int>, now1: int)
    ensures var first := StartTimer(true, c0, t0, now0, Missing);
      && first.outcome.Ok?
      && StartTimer(true, c1, t1, now1, first.file)
        == Started(Ok, now0 + c0 - now1, Some(now0 + c0), first.file)
  {
    FreshPersistentStart(c0, t0, now0);
    RestoreReadsTarget(now0 + c0, c1, t1, now1, true);
  }

  /** A restore file that exists but cannot be read makes `set_timer` exit
      with status 1, changing neither the timer nor the file. */
  lemma UnreadableRestoreExits(countdown: int, target: Option<int>, now: int, text: string, writable: bool)
    ensures StartTimer(true, countdown, target, now, Present(text, false, writable))
      == Started(Exit(1), countdown, target, Present(text, false, writable))
  {
  }

  /** A restore file that exists but cannot be written makes
      `write_restore_file` exit with status 1, leaving the file as it was. */
  lemma UnwritableRestoreExits(target: Option<int>, text: string, readable: bool)
    ensures WriteRestore(target, Present(text, readable, false)) == Written(Exit(1), Present(text, readable, false))
  {
  }

  /** An empty restore file read before any target was set leaves
      `@target_timer` nil, and `nil - Time.new.to_i` raises. */
  lemma EmptyRestoreFileRaises(countdown: int, now: int, writable: bool)
    ensures StartTimer(true, countdown, None, now, Present("", true, writable)).outcome == Uncaught(NO_METHOD_ERROR)
  {
    assert Lines("") == [];
  }

  // ---------------------------------------------------------------------
  // update_timer
  // ---------------------------------------------------------------------

  datatype Ticked = Ticked(outcome: Outcome, countdown: int, icon: Option<Icon>)

  /** `update_timer`: the countdown becomes the time left until the target,
      unclamped, and the icon follows its tier; with no target `nil - now`
      raises before anything changes. */
  function Tick(countdown: int, target: Option<int>, now: int): (r: Ticked)
    ensures r.outcome.Ok? <==> target.Some?
    ensures r.outcome.Ok? ==> now + r.countdown == target.value && r.icon == Some(IconFor(r.countdown))
    ensures !r.outcome.Ok? ==> r == Ticked(Uncaught(NO_METHOD_ERROR), countdown, None)
  {
    match target
    case Some(t) => Ticked(Ok, t - now, Some(IconFor(t - now)))
    case None => Ticked(Uncaught(NO_METHOD_ERROR), countdown, None)
  }

  /** For a fixed target a later tick never shows more time left, nor a
      brighter icon. */
  lemma CountdownNeverIncreases(countdown: int, target: int, now1: int, now2: int)
    requires now1 <= now2
    ensures Tick(countdown, Some(target), now2).countdown <= Tick(countdown, Some(target), now1).countdown
    ensures Level(Tick(countdown, Some(target), now2).icon.value) <= Level(Tick(countdown, Some(target), now1).icon.value)
  {
    IconNeverBrightens(target - now2, target - now1);
  }

  /** A tick after a start that returned counts down from the countdown the
      start left: `elapsed` seconds later it shows that much less. */
  lemma TickAfterStart(persistent: bool, countdown: int, target: Option<int>, now: int, f: RestoreFile, elapsed: int)
    requires StartTimer(persistent, countdown, target, now, f).outcome.Ok?
    ensures var s := StartTimer(persistent, countdown, target, now, f);
      var r := Tick(s.countdown, s.target, now + elapsed);
      r.outcome.Ok? && r.countdown == s.countdown - elapsed && r.icon == Some(IconFor(s.countdown - elapsed))
  {
  }
}
