/**
 * The fixed frame of the weekly timetable: the 26 half-hour row slots from
 * 07:30 to 20:00 and the five Monday-to-Friday column dates.
 */
module Calendar {
  import opened Wrappers
  import opened ClockText

  const SlotCount: nat := 26
  const SlotStep: int := 30
  /** 07:30 and 20:00, in minutes since midnight. */
  const FirstSlot: int := 7 * 60 + 30
  const LastSlot: int := 20 * 60

  /** Slot k starts 450 + 30 k minutes after midnight. */
  function SlotMinutes(k: nat): int
    requires k < SlotCount
  {
    FirstSlot + SlotStep * k
  }

  /** The row label of slot k, as `strftime("%H:%M")` writes it. */
  function SlotLabel(k: nat): string
    requires k < SlotCount
  {
    Format(SlotMinutes(k))
  }

  /**
   * `times.index(t)` (main.py:120, 124): the position of a time in the slot
   * list, or None where Python raises ValueError.
   */
  function SlotOf(m: int): (r: Option<nat>)
    ensures r.Some? ==> r.value < SlotCount && SlotMinutes(r.value) == m
    ensures r.None? ==> forall k :: 0 <= k < SlotCount ==> SlotMinutes(k) != m
  {
    if FirstSlot <= m <= LastSlot && (m - FirstSlot) % SlotStep == 0 then
      Some((m - FirstSlot) / SlotStep)
    else
      None
  }

  /**
   * The slot list of main.py:69-71: start at 07:30 and keep appending the
   * last time plus 30 minutes while the last time is before 20:00.
   */
  method SlotTimes() returns (times: seq<int>)
    ensures |times| == SlotCount
    ensures forall k :: 0 <= k < SlotCount ==> times[k] == SlotMinutes(k)
  {
    times := [FirstSlot];
    while times[|times| - 1] < LastSlot
      invariant 1 <= |times| <= SlotCount
      invariant forall k :: 0 <= k < |times| ==> times[k] == SlotMinutes(k)
      decreases LastSlot - times[|times| - 1]
    {
      times := times + [times[|times| - 1] + SlotStep];
    }
  }

  /** The slots start at 07:30, end at 20:00 and step by 30 minutes, hence strictly increase. */
  lemma SlotsAscend()
    ensures SlotLabel(0) == "07:30" && SlotLabel(SlotCount - 1) == "20:00"
    ensures forall k :: 0 < k < SlotCount ==> SlotMinutes(k) == SlotMinutes(k - 1) + SlotStep
    ensures forall j, k :: 0 <= j < k < SlotCount ==> SlotMinutes(j) < SlotMinutes(k)
  {
  }

  /** No two rows share a label. */
  lemma SlotLabelsDistinct(j: nat, k: nat)
    requires j < SlotCount && k < SlotCount && j != k
    ensures SlotLabel(j) != SlotLabel(k)
  {
  }

  /**
   * Addressing a row by the label `strftime(strptime(s))` (main.py:94, 100)
   * reaches the row whose index `SlotOf` gives, and only that row.
   */
  lemma SlotOfLabel(s: string, k: nat)
    requires k < SlotCount
    ensures (ParseClock(s).Some? && SlotOf(ParseClock(s).value) == Some(k)) <==> SlotLabel(k) == s
  {
  }

  /** The column dates of main.py:55-59: Monday's day number, then the four days after it. */
  method WeekDates(monday: int) returns (dates: seq<int>)
    ensures |dates| == 5
    ensures forall j :: 0 <= j < 5 ==> dates[j] == monday + j
  {
    dates := [monday];
    for i := 1 to 5
      invariant |dates| == i
      invariant forall j :: 0 <= j < i ==> dates[j] == monday + j
    {
      dates := dates + [monday + i];
    }
  }
}
