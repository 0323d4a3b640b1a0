/**
 * The sleep-cycle calculator: nine wake-up options for a bedtime, one per
 * number of 90-minute cycles, each after a fixed 15 minutes of falling
 * asleep; and the detail shown when one option is picked.
 */
module Cycles {
  import opened Clock

  const FALL_ASLEEP_MINUTES: int := 15
  const CYCLE_MINUTES: int := 90
  /** Options are offered for 1 up to this many cycles (`range(1, 10)`). */
  const MAX_CYCLES: int := 9

  /** One entry of the list built by `calculate_all_wake_up_times`. */
  datatype WakeOption = WakeOption(
    cycles: int,
    wakeUpTime: Instant,
    displayTime: string,
    totalSleepHours: int,
    totalSleepMinutes: int)

  /** The entry for `cycles` cycles after `sleepTime`, as the loop body computes it. */
  function WakeOptionFor(sleepTime: Instant, cycles: int): (o: WakeOption)
    ensures o.cycles == cycles
    ensures o.totalSleepHours * 60 + o.totalSleepMinutes == cycles * CYCLE_MINUTES + FALL_ASLEEP_MINUTES
    ensures 0 <= o.totalSleepMinutes < 60
    ensures o.wakeUpTime == sleepTime + (o.totalSleepHours * 60 + o.totalSleepMinutes) * MINUTE
    ensures o.displayTime == FormatHHMM(ClockOf(o.wakeUpTime))
  {
    var total := cycles * CYCLE_MINUTES + FALL_ASLEEP_MINUTES;
    var wake := sleepTime + total * MINUTE;
    WakeOption(cycles, wake, FormatHHMM(ClockOf(wake)), total / 60, total % 60)
  }

  /** The whole list: the entries for 1, 2, …, 9 cycles, in that order. */
  function AllWakeUpTimes(sleepTime: Instant): (options: seq<WakeOption>)
    ensures |options| == MAX_CYCLES
    ensures forall i | 0 <= i < MAX_CYCLES :: options[i].cycles == i + 1
  {
    seq(MAX_CYCLES, i requires 0 <= i < MAX_CYCLES => WakeOptionFor(sleepTime, i + 1))
  }

  /** `calculate_all_wake_up_times`: appends one entry per cycle count. */
  method CalculateAllWakeUpTimes(sleepTime: Instant) returns (results: seq<WakeOption>)
    ensures results == AllWakeUpTimes(sleepTime)
  {
    results := [];
    for cycles := 1 to MAX_CYCLES + 1
      invariant results == AllWakeUpTimes(sleepTime)[..cycles - 1]
    {
      var total := cycles * CYCLE_MINUTES + FALL_ASLEEP_MINUTES;
      var wake := sleepTime + total * MINUTE;
      results := results + [WakeOption(cycles, wake, FormatHHMM(ClockOf(wake)), total / 60, total % 60)];
    }
  }

  /**
   * Exactly nine entries, entry i for i + 1 cycles, waking exactly
   * (i + 1) * 90 + 15 minutes after the bedtime, with that duration split into
   * whole hours and 0..59 leftover minutes, and showing its wake-up time.
   */
  lemma WakeUpTimesExact(sleepTime: Instant)
    ensures |AllWakeUpTimes(sleepTime)| == 9
    ensures forall i | 0 <= i < 9 ::
      var o := AllWakeUpTimes(sleepTime)[i];
      && o.cycles == i + 1
      && o.wakeUpTime == sleepTime + (o.cycles * 90 + 15) * MINUTE
      && o.totalSleepHours * 60 + o.totalSleepMinutes == o.cycles * 90 + 15
      && 0 <= o.totalSleepMinutes < 60
      && o.displayTime == FormatHHMM(ClockOf(o.wakeUpTime))
  {
  }

  /**
   * Ordered by cycle count is ordered by wake-up time: consecutive entries are
   * exactly one cycle apart, so wake-up times strictly increase.
   */
  lemma WakeUpTimesIncrease(sleepTime: Instant)
    ensures forall i | 0 <= i < 8 ::
      AllWakeUpTimes(sleepTime)[i + 1].wakeUpTime == AllWakeUpTimes(sleepTime)[i].wakeUpTime + 90 * MINUTE
    ensures forall i, j | 0 <= i < j < 9 ::
      AllWakeUpTimes(sleepTime)[i].wakeUpTime < AllWakeUpTimes(sleepTime)[j].wakeUpTime
  {
    WakeUpTimesExact(sleepTime);
  }

  /** The recommendation attached to a picked option (bot.py:333-338). */
  datatype Band = Short | Optimal | Full

  function BandOf(cycles: int): Band {
    if cycles <= 3 then Short else if cycles <= 6 then Optimal else Full
  }

  /** Each band is exactly its range of cycle counts. */
  lemma BandRanges(cycles: int)
    ensures BandOf(cycles) == Short <==> cycles <= 3
    ensures BandOf(cycles) == Optimal <==> 4 <= cycles <= 6
    ensures BandOf(cycles) == Full <==> 7 <= cycles
  {
  }

  /** What the `time_` branch of the button handler shows for one option. */
  datatype Detail = Detail(
    sleepTime: Instant,
    wakeUpTime: Instant,
    cycles: int,
    totalHours: int,
    totalMinutes: int,
    band: Band)

  /** The detail for `cycles` cycles, recomputed on its own from the stored bedtime. */
  function DetailFor(sleepTime: Instant, cycles: int): (d: Detail)
    ensures d.sleepTime == sleepTime && d.cycles == cycles && d.band == BandOf(cycles)
    ensures d.totalHours * 60 + d.totalMinutes == cycles * CYCLE_MINUTES + FALL_ASLEEP_MINUTES
    ensures 0 <= d.totalMinutes < 60
    ensures d.wakeUpTime == sleepTime + (d.totalHours * 60 + d.totalMinutes) * MINUTE
  {
    var totalSleepMinutes := cycles * CYCLE_MINUTES + FALL_ASLEEP_MINUTES;
    Detail(sleepTime, sleepTime + totalSleepMinutes * MINUTE, cycles,
           totalSleepMinutes / 60, totalSleepMinutes % 60, BandOf(cycles))
  }

  /**
   * The detail of option n agrees with entry n of the full list: same cycle
   * count, wake-up time and duration.
   */
  lemma DetailMatchesList(sleepTime: Instant, n: int)
    requires 1 <= n <= 9
    ensures var d, o := DetailFor(sleepTime, n), AllWakeUpTimes(sleepTime)[n - 1];
      && d.sleepTime == sleepTime
      && d.cycles == o.cycles
      && d.wakeUpTime == o.wakeUpTime
      && d.totalHours == o.totalSleepHours
      && d.totalMinutes == o.totalSleepMinutes
  {
  }
}
