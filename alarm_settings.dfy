/**
 * The alarm settings dialog (alarm-settings.tsx): it holds the value of a
 * time input and, on submit, resolves it into the next instant at which the
 * wall clock shows that hour and minute.
 */
module AlarmSettingsDialog {
  import opened Instants
  import opened TimeText

  /**
   * The target `handleSubmit` computes at `now`: today at the entered hour and
   * minute with zero seconds, or the same time tomorrow when that is not
   * strictly after `now`.
   */
  function ResolveAlarmTarget(hm: HourMinute, now: Instant): (target: Instant)
    requires hm.Valid()
    ensures now < target <= now + MsPerDay
    ensures HourOf(target) == hm.hours && MinuteOf(target) == hm.minutes
    ensures SecondOf(target) == 0 && MillisecondOf(target) == 0
  {
    var today := At(DayOf(now), hm.hours, hm.minutes);
    if today <= now then At(DayOf(now) + 1, hm.hours, hm.minutes) else today
  }

  /**
   * The resolved target is the earliest instant strictly after `now` that
   * shows the entered hour and minute with zero seconds and milliseconds.
   */
  lemma ResolveIsNextOccurrence(hm: HourMinute, now: Instant, t: Instant)
    requires hm.Valid()
    requires now < t && HourOf(t) == hm.hours && MinuteOf(t) == hm.minutes
    requires SecondOf(t) == 0 && MillisecondOf(t) == 0
    ensures ResolveAlarmTarget(hm, now) <= t
  {
    var d := DayOf(now);
    WholeMinute(t);
    var today := At(d, hm.hours, hm.minutes);
    assert t - today == (DayOf(t) - d) * MsPerDay;
    assert DayOf(t) >= d;
  }

  /**
   * The target lies on the next day exactly when the entered hour and minute
   * are not later than the hour and minute of `now`; otherwise it is today.
   */
  lemma ResolveDay(hm: HourMinute, now: Instant)
    requires hm.Valid()
    ensures var later := hm.hours > HourOf(now) || (hm.hours == HourOf(now) && hm.minutes > MinuteOf(now));
            DayOf(ResolveAlarmTarget(hm, now)) == if later then DayOf(now) else DayOf(now) + 1
  {
  }

  /** At 14:00, 09:30 resolves to the next day and 15:00 to the same day. */
  lemma ResolveAtTwoPm(day: int)
    ensures ResolveAlarmTarget(HourMinute(9, 30), At(day, 14, 0)) == At(day + 1, 9, 30)
    ensures ResolveAlarmTarget(HourMinute(15, 0), At(day, 14, 0)) == At(day, 15, 0)
  {
  }

  /** The dialog's form state: the value of its time input. */
  class AlarmSettings {
    var alarmTime: string

    constructor ()
      ensures alarmTime == ""
    {
      alarmTime := "";
    }

    /** The input's `onChange` handler. */
    method SetAlarmTime(value: string)
      modifies this
      ensures alarmTime == value
    {
      alarmTime := value;
    }

    /**
     * `handleSubmit`: parse the input, build today's date at that hour and
     * minute, move it one day on when it is not after `now`, and hand the
     * result to `onSetAlarm` (the returned target).
     */
    method HandleSubmit(now: Instant) returns (target: Instant)
      requires IsTimeInput(alarmTime)
      ensures target == ResolveAlarmTarget(ParseTimeInput(alarmTime), now)
      ensures now < target <= now + MsPerDay
      ensures ShortTime(target) == alarmTime
      ensures SecondOf(target) == 0 && MillisecondOf(target) == 0
    {
      var hm := ParseTimeInput(alarmTime);
      var alarmDate := At(DayOf(now), hm.hours, hm.minutes);
      if alarmDate <= now {
        alarmDate := At(DayOf(alarmDate) + 1, hm.hours, hm.minutes);
      }
      target := alarmDate;
    }
  }
}
