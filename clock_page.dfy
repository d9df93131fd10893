/**
 * The `Clock` page (page.tsx): the alarm state, the once-per-second alarm
 * check, setting and stopping the alarm, the audio context with its sticky
 * error message, and the angles of the three clock hands.
 *
 * Timers are not modelled: the environment calls `DisplayTick` for the
 * display timer and `AlarmTick` for each firing of the alarm interval, which
 * exists only while an alarm time is set. Whether the browser manages to
 * create or reset an audio context is a parameter of the method concerned.
 */
module ClockPage {
  import opened Instants
  import opened TimeText
  import opened AlarmSettingsDialog

  datatype Option<T> = None | Some(value: T)

  const UnsupportedAudioMessage: string := "Your browser does not support Web Audio API. Using visual alarm only."
  const ResetAudioMessage: string := "Failed to reset audio. Using visual alarm only."

  /** The hour hand's rotation, in half-degrees: 30 degrees per hour plus half a degree per minute. */
  function HourHandHalfDegrees(hours: int, minutes: int): (r: int)
    requires 0 <= hours < 24 && 0 <= minutes < 60
    ensures 0 <= r < 720
    ensures r == (60 * hours + minutes) % 720
  {
    60 * (hours % 12) + minutes
  }

  /** The minute hand's rotation in degrees. */
  function MinuteHandDegrees(minutes: int): (r: int)
    requires 0 <= minutes < 60
    ensures 0 <= r <= 354 && r % 6 == 0
  {
    minutes * 6
  }

  /** The second hand's rotation in degrees. */
  function SecondHandDegrees(seconds: int): (r: int)
    requires 0 <= seconds < 60
    ensures 0 <= r <= 354 && r % 6 == 0
  {
    seconds * 6
  }

  /**
   * At every instant the hour hand stands at the minutes elapsed since midnight
   * modulo twelve hours, and the minute hand is where twelve turns of the hour
   * hand would put it; the second hand shows the whole seconds of the instant.
   */
  lemma HandsAgree(t: Instant)
    ensures HourHandHalfDegrees(HourOf(t), MinuteOf(t)) == TimeOfDay(t) / MsPerMinute % 720
    ensures 2 * MinuteHandDegrees(MinuteOf(t)) == 12 * HourHandHalfDegrees(HourOf(t), MinuteOf(t)) % 720
    ensures SecondHandDegrees(SecondOf(t)) == 6 * (TimeOfDay(t) / MsPerSecond % 60)
  {
    var r := TimeOfDay(t);
    var q, s := r / MsPerMinute, SecondOf(t);
    assert r == (q * 60 + s) * MsPerSecond + r % MsPerMinute % MsPerSecond;
    DivModUnique(r, MsPerSecond, q * 60 + s, r % MsPerMinute % MsPerSecond);
    DivModUnique(q * 60 + s, 60, q, s);
  }

  /** The alarm check at page.tsx:45: the "HH:MM" of now equals that of the target. */
  predicate TickMatches(now: Instant, target: Instant)
  {
    ShortTime(now) == ShortTime(target)
  }

  /** The check compares hour and minute only: the date, seconds and milliseconds are ignored. */
  lemma TickMatchesIff(now: Instant, target: Instant)
    ensures TickMatches(now, target) <==> HourOf(now) == HourOf(target) && MinuteOf(now) == MinuteOf(target)
  {
    ShortTimeEqual(now, target);
  }

  /** A target resolved from an input fires on exactly the ticks whose clock shows that input. */
  lemma TickMatchesEnteredTime(input: string, now: Instant, t: Instant)
    requires IsTimeInput(input)
    ensures TickMatches(t, ResolveAlarmTarget(ParseTimeInput(input), now)) <==> ShortTime(t) == input
  {
  }

  /**
   * Entering the current minute resolves to tomorrow, yet the check already
   * matches at `now`, so the alarm goes off on any tick in the rest of the
   * current minute.
   */
  lemma CurrentMinuteFiresToday(now: Instant)
    ensures var target := ResolveAlarmTarget(HourMinute(HourOf(now), MinuteOf(now)), now);
            DayOf(target) == DayOf(now) + 1 && TickMatches(now, target)
  {
  }

  /** The lifecycle the page's state amounts to. */
  datatype AlertState = Idle | Armed | Firing

  class Clock {
    /** The displayed time (`time`). */
    var time: Instant
    var showAlarmSettings: bool
    var alarmTime: Option<Instant>
    var isAlarmActive: bool
    var audioError: Option<string>
    /** Whether `audioContextRef.current` holds a context. */
    var hasAudioContext: bool
    /** How many times `playAlarmSound` has been called. */
    var playCalls: nat
    /** How many of those calls got past its guard and started a tone. */
    var tonesStarted: nat

    ghost predicate Valid()
      reads this
    {
      (isAlarmActive ==> alarmTime.Some?) &&
      (audioError.Some? ==> audioError.value == UnsupportedAudioMessage || audioError.value == ResetAudioMessage) &&
      tonesStarted <= playCalls
    }

    /** The guard of `playAlarmSound` (page.tsx:56). */
    predicate AudioReady()
      reads this
    {
      hasAudioContext && audioError.None?
    }

    /** Whether the alarm interval, which exists only while an alarm time is set, matches at `now`. */
    predicate AlarmDue(now: Instant)
      reads this
    {
      alarmTime.Some? && TickMatches(now, alarmTime.value)
    }

    function State(): (s: AlertState)
      reads this
      requires Valid()
      ensures s == Idle <==> alarmTime.None?
      ensures s == Firing <==> isAlarmActive
    {
      if alarmTime.None? then Idle else if isAlarmActive then Firing else Armed
    }

    /** The first render: no alarm, no audio context yet. */
    constructor (now: Instant)
      ensures Valid() && State() == Idle
      ensures time == now && !showAlarmSettings && alarmTime.None? && !isAlarmActive
      ensures audioError.None? && !hasAudioContext && playCalls == 0 && tonesStarted == 0
    {
      time := now;
      showAlarmSettings := false;
      alarmTime := None;
      isAlarmActive := false;
      audioError := None;
      hasAudioContext := false;
      playCalls := 0;
      tonesStarted := 0;
    }

    /**
     * The mount effect that creates the audio context; `created` says whether
     * the browser's constructor succeeded. On failure the reference keeps its
     * value and the error message is recorded.
     */
    method InitAudio(created: bool)
      requires Valid()
      modifies this
      ensures Valid()
      ensures hasAudioContext == (old(hasAudioContext) || created)
      ensures audioError == if created then old(audioError) else Some(UnsupportedAudioMessage)
      ensures old(audioError).Some? ==> audioError.Some?
      ensures time == old(time) && showAlarmSettings == old(showAlarmSettings)
      ensures alarmTime == old(alarmTime) && isAlarmActive == old(isAlarmActive)
      ensures playCalls == old(playCalls) && tonesStarted == old(tonesStarted)
    {
      if created {
        hasAudioContext := true;
      } else {
        audioError := Some(UnsupportedAudioMessage);
      }
    }

    /** The display timer: `setTime(new Date())`. */
    method DisplayTick(now: Instant)
      requires Valid()
      modifies this`time
      ensures Valid() && time == now
    {
      time := now;
    }

    method ToggleAlarmSettings()
      requires Valid()
      modifies this`showAlarmSettings
      ensures Valid() && showAlarmSettings == !old(showAlarmSettings)
    {
      showAlarmSettings := !showAlarmSettings;
    }

    /** The dialog's `onClose`. */
    method CloseAlarmSettings()
      requires Valid()
      modifies this`showAlarmSettings
      ensures Valid() && !showAlarmSettings
    {
      showAlarmSettings := false;
    }

    /** `setAlarm`: replaces any target, closes the dialog, and leaves an active alarm active. */
    method SetAlarm(target: Instant)
      requires Valid()
      modifies this
      ensures Valid()
      ensures alarmTime == Some(target) && !showAlarmSettings
      ensures isAlarmActive == old(isAlarmActive)
      ensures time == old(time) && audioError == old(audioError) && hasAudioContext == old(hasAudioContext)
      ensures playCalls == old(playCalls) && tonesStarted == old(tonesStarted)
    {
      alarmTime := Some(target);
      showAlarmSettings := false;
    }

    /** `playAlarmSound`: a tone starts only when a context exists and no audio error is recorded. */
    method PlayAlarmSound()
      requires Valid()
      modifies this`playCalls, this`tonesStarted
      ensures Valid()
      ensures playCalls == old(playCalls) + 1
      ensures tonesStarted == old(tonesStarted) + if AudioReady() then 1 else 0
    {
      playCalls := playCalls + 1;
      if hasAudioContext && audioError.None? {
        tonesStarted := tonesStarted + 1;
      }
    }

    /**
     * One firing of the alarm interval at `now`. On a match the alarm becomes
     * active and the sound is played again, however often it already was; the
     * target is kept.
     */
    method AlarmTick(now: Instant)
      requires Valid()
      modifies this
      ensures Valid()
      ensures alarmTime == old(alarmTime)
      ensures isAlarmActive == (old(isAlarmActive) || old(AlarmDue(now)))
      ensures playCalls == old(playCalls) + if old(AlarmDue(now)) then 1 else 0
      ensures tonesStarted == old(tonesStarted) + if old(AlarmDue(now)) && AudioReady() then 1 else 0
      ensures time == old(time) && showAlarmSettings == old(showAlarmSettings)
      ensures audioError == old(audioError) && hasAudioContext == old(hasAudioContext)
    {
      if alarmTime.Some? {
        if ShortTime(now) == ShortTime(alarmTime.value) {
          isAlarmActive := true;
          PlayAlarmSound();
        }
      }
    }

    /**
     * `stopAlarm`: deactivates and clears the alarm, then closes and recreates
     * the audio context when there is one; `resetOk` says whether that
     * succeeded. A failure records the reset message; the reference keeps
     * pointing at a context either way. The function has no guard, but its only
     * caller, the notification's Stop button, exists only while the alarm is
     * active.
     */
    method StopAlarm(resetOk: bool)
      requires Valid()
      modifies this
      ensures Valid() && State() == Idle
      ensures !isAlarmActive && alarmTime.None?
      ensures hasAudioContext == old(hasAudioContext)
      ensures audioError == if old(hasAudioContext) && !resetOk then Some(ResetAudioMessage) else old(audioError)
      ensures old(audioError).Some? ==> audioError.Some?
      ensures time == old(time) && showAlarmSettings == old(showAlarmSettings)
      ensures playCalls == old(playCalls) && tonesStarted == old(tonesStarted)
    {
      isAlarmActive := false;
      alarmTime := None;
      if hasAudioContext {
        if !resetOk {
          audioError := Some(ResetAudioMessage);
        }
      }
    }

    /** Submitting the settings dialog, whose `onSetAlarm` is `setAlarm` (page.tsx:231). */
    method SubmitAlarmSettings(form: AlarmSettings, now: Instant)
      requires Valid() && IsTimeInput(form.alarmTime)
      modifies this
      ensures Valid()
      ensures alarmTime == Some(ResolveAlarmTarget(ParseTimeInput(form.alarmTime), now))
      ensures !showAlarmSettings && isAlarmActive == old(isAlarmActive)
      ensures time == old(time) && audioError == old(audioError) && hasAudioContext == old(hasAudioContext)
      ensures playCalls == old(playCalls) && tonesStarted == old(tonesStarted)
    {
      var target := form.HandleSubmit(now);
      SetAlarm(target);
    }
  }

  /** Stopping twice leaves the same alarm state as stopping once, whatever the audio reset does. */
  method StopTwice(c: Clock, firstOk: bool, secondOk: bool)
      returns (afterFirst: (bool, Option<Instant>), afterSecond: (bool, Option<Instant>))
    requires c.Valid()
    modifies c
    ensures c.Valid()
    ensures afterFirst == afterSecond == (false, None)
    ensures old(c.audioError).Some? ==> c.audioError.Some?
  {
    c.StopAlarm(firstOk);
    afterFirst := (c.isAlarmActive, c.alarmTime);
    c.StopAlarm(secondOk);
    afterSecond := (c.isAlarmActive, c.alarmTime);
  }

  /**
   * Two matching ticks in the same minute: the alarm is active after both and
   * the sound was played twice, since nothing guards against firing again.
   */
  method TwoTicksInOneMinute(c: Clock, first: Instant, second: Instant)
    requires c.Valid() && c.alarmTime.Some?
    requires TickMatches(first, c.alarmTime.value) && TickMatches(second, c.alarmTime.value)
    modifies c
    ensures c.Valid() && c.State() == Firing
    ensures c.playCalls == old(c.playCalls) + 2
    ensures c.tonesStarted == old(c.tonesStarted) + if old(c.AudioReady()) then 2 else 0
  {
    c.AlarmTick(first);
    c.AlarmTick(second);
  }

  /**
   * A tick after the target minute does not end an active alarm: it keeps
   * firing, with the same target, until it is stopped.
   */
  method FiringOutlastsItsMinute(c: Clock, later: Instant)
    requires c.Valid() && c.isAlarmActive && c.alarmTime.Some?
    requires !TickMatches(later, c.alarmTime.value)
    modifies c
    ensures c.Valid() && c.State() == Firing
    ensures c.alarmTime == old(c.alarmTime)
    ensures c.playCalls == old(c.playCalls) && c.tonesStarted == old(c.tonesStarted)
  {
    c.AlarmTick(later);
  }

  /**
   * Setting an alarm from the dialog and ticking at an instant whose clock
   * shows the entered time makes the alarm active, with or without audio.
   */
  method ArmAndFire(c: Clock, form: AlarmSettings, now: Instant, t: Instant)
    requires c.Valid() && IsTimeInput(form.alarmTime) && ShortTime(t) == form.alarmTime
    modifies c
    ensures c.Valid() && c.State() == Firing
    ensures c.alarmTime == Some(ResolveAlarmTarget(ParseTimeInput(form.alarmTime), now))
    ensures c.playCalls == old(c.playCalls) + 1
    ensures c.tonesStarted == old(c.tonesStarted) + if old(c.AudioReady()) then 1 else 0
  {
    c.SubmitAlarmSettings(form, now);
    TickMatchesEnteredTime(form.alarmTime, now, t);
    c.AlarmTick(t);
  }
}
