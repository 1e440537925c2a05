/**
 * The timetable as a value: 26 rows (the half-hour slots) by 5 columns
 * (Monday to Friday) of cell strings, and the effect on it of projecting work
 * entries and applying "Start"/"Ende" boundary events, as main.py:74-126 does
 * to its DataFrame.
 */
module Grid {
  import opened Wrappers
  import opened ClockText
  import opened Calendar

  const Columns: nat := 5
  /** The marker for a slot outside the working day. */
  const Slash: string := "/"
  const StartStatus: string := "Start"
  const EndStatus: string := "Ende"

  /** Monday is 0; 5 and 6 (Saturday, Sunday) have no column. */
  type Weekday = d: int | 0 <= d < 7

  /** A row of the work_log query: the entry's weekday, its stored time and its project name. */
  datatype WorkEntry = WorkEntry(weekday: Weekday, time: string, project: string)

  /** A row of the workday_log query. */
  datatype BoundaryEvent = BoundaryEvent(weekday: Weekday, time: string, status: string)

  /** The exceptions that abort the construction of the table. */
  datatype BuildError =
    | WeekendDay     // `english_weekdays.index` finds no Saturday or Sunday
    | MalformedTime  // indexing, `int(..)` or `strptime` rejects the time text
    | NotASlot       // `times.index` finds no such slot
    | NoSlotAfter    // `times[i + 1]` is past the last slot

  /** Cells indexed [row][column]. */
  type Cells = seq<seq<string>>

  predicate WellFormed(g: Cells) {
    |g| == SlotCount && forall r :: 0 <= r < |g| ==> |g[r]| == Columns
  }

  /** The freshly created table: every cell the empty string (main.py:74-75). */
  function EmptyGrid(): (g: Cells)
    ensures WellFormed(g)
    ensures forall r, c :: 0 <= r < SlotCount && 0 <= c < Columns ==> g[r][c] == ""
  {
    seq(SlotCount, _ => seq(Columns, _ => ""))
  }

  /** `timetable_df.loc[row, column] = v`: one cell takes the new value, no other cell changes. */
  function SetCell(g: Cells, r: nat, c: nat, v: string): (h: Cells)
    requires WellFormed(g) && r < SlotCount && c < Columns
    ensures WellFormed(h)
    ensures forall x, y :: 0 <= x < SlotCount && 0 <= y < Columns ==>
              h[x][y] == if x == r && y == c then v else g[x][y]
  {
    g[r := g[r][c := v]]
  }

  /** The loop writing "/" into rows lo, lo+1, ..., hi-1 of column c, in that order. */
  function FillSlash(g: Cells, c: nat, lo: nat, hi: nat): (h: Cells)
    requires WellFormed(g) && c < Columns && lo <= hi <= SlotCount
    ensures WellFormed(h)
    ensures forall x, y :: 0 <= x < SlotCount && 0 <= y < Columns ==>
              h[x][y] == if y == c && lo <= x < hi then Slash else g[x][y]
    decreases hi - lo
  {
    if hi == lo then g else SetCell(FillSlash(g, c, lo, hi - 1), hi - 1, c, Slash)
  }

  /** Python's reading of a list index in -26..25: a negative index counts from the end. */
  function PyIndex(j: int): (k: nat)
    requires -(SlotCount as int) <= j < SlotCount
    ensures k < SlotCount && (k == j || k == j + SlotCount)
  {
    if j < 0 then j + SlotCount else j
  }

  /**
   * A "Start" event whose rounded slot is i (main.py:120-122): the raw time
   * goes into `times[i - 1]`, then "/" into every slot of `times[:i - 1]`.
   */
  function AfterStart(g: Cells, c: nat, i: nat, raw: string): (h: Cells)
    requires WellFormed(g) && c < Columns && i < SlotCount
    ensures WellFormed(h)
  {
    var t := PyIndex(i - 1);
    FillSlash(SetCell(g, t, c, raw), c, 0, t)
  }

  /**
   * An "Ende" event whose rounded slot is i (main.py:124-126): the raw time
   * goes into `times[i + 1]`, then "/" into every slot of `times[i + 2:]`.
   */
  function AfterEnd(g: Cells, c: nat, i: nat, raw: string): (h: Cells)
    requires WellFormed(g) && c < Columns && i + 1 < SlotCount
    ensures WellFormed(h)
  {
    FillSlash(SetCell(g, i + 1, c, raw), c, i + 2, SlotCount)
  }

  /** A Start at slot i >= 1 writes the raw time one slot earlier and "/" above it, in its own column only. */
  lemma StartEffect(g: Cells, c: nat, i: nat, raw: string)
    requires WellFormed(g) && c < Columns && 1 <= i < SlotCount
    ensures forall x, y :: 0 <= x < SlotCount && 0 <= y < Columns ==>
              AfterStart(g, c, i, raw)[x][y] ==
                if y != c || x >= i then g[x][y]
                else if x == i - 1 then raw
                else Slash
  {
  }

  /**
   * A Start that rounds to 07:30 (slot 0) reaches `times[-1]`: the raw time
   * lands in the 20:00 row and every other row of the column becomes "/".
   */
  lemma StartAtFirstSlot(g: Cells, c: nat, raw: string)
    requires WellFormed(g) && c < Columns
    ensures forall x, y :: 0 <= x < SlotCount && 0 <= y < Columns ==>
              AfterStart(g, c, 0, raw)[x][y] ==
                if y != c then g[x][y]
                else if x == SlotCount - 1 then raw
                else Slash
  {
  }

  /** An Ende at slot i <= 24 writes the raw time one slot later and "/" below it, in its own column only. */
  lemma EndEffect(g: Cells, c: nat, i: nat, raw: string)
    requires WellFormed(g) && c < Columns && i + 1 < SlotCount
    ensures forall x, y :: 0 <= x < SlotCount && 0 <= y < Columns ==>
              AfterEnd(g, c, i, raw)[x][y] ==
                if y != c || x <= i then g[x][y]
                else if x == i + 1 then raw
                else Slash
  {
  }

  /** Entries whose time parses must name a slot: pandas would add a row for any other label. */
  predicate OnGrid(e: WorkEntry) {
    ParseClock(e.time).Some? ==> SlotOf(ParseClock(e.time).value).Some?
  }

  predicate AllOnGrid(es: seq<WorkEntry>) {
    forall k :: 0 <= k < |es| ==> OnGrid(es[k])
  }

  /** The entry reaches the cell (r, c), taking the row by its parsed time and the column by its weekday. */
  predicate Targets(e: WorkEntry, r: nat, c: nat) {
    e.weekday == c && ParseClock(e.time).Some? && SlotOf(ParseClock(e.time).value) == Some(r)
  }

  /** The entry passes main.py:94-97 without an exception. */
  predicate Accepted(e: WorkEntry) {
    ParseClock(e.time).Some? && e.weekday < Columns
  }

  /** One pass of the entry loop (main.py:92-100). */
  function Projected(g: Cells, e: WorkEntry): (r: Result<Cells, BuildError>)
    requires WellFormed(g) && OnGrid(e)
    ensures r.Success? ==> WellFormed(r.value)
  {
    match ParseClock(e.time)
    case None => Failure(MalformedTime)
    case Some(m) =>
      if e.weekday >= Columns then Failure(WeekendDay)
      else Success(SetCell(g, SlotOf(m).value, e.weekday, e.project))
  }

  /**
   * An accepted entry sets exactly the cell it targets to its project name;
   * a rejected one raises, the malformed time before the weekend day.
   */
  lemma ProjectedSetsOneCell(g: Cells, e: WorkEntry)
    requires WellFormed(g) && OnGrid(e)
    ensures Projected(g, e).Success? <==> Accepted(e)
    ensures ParseClock(e.time).None? ==> Projected(g, e) == Failure(MalformedTime)
    ensures ParseClock(e.time).Some? && e.weekday >= Columns ==> Projected(g, e) == Failure(WeekendDay)
    ensures Projected(g, e).Success? ==>
              forall x, y :: 0 <= x < SlotCount && 0 <= y < Columns ==>
                Projected(g, e).value[x][y] == if Targets(e, x, y) then e.project else g[x][y]
  {
  }

  /** The entry loop of main.py:91-100, entry after entry; the first exception ends it. */
  function ProjectedAll(g: Cells, es: seq<WorkEntry>): (r: Result<Cells, BuildError>)
    requires WellFormed(g) && AllOnGrid(es)
    ensures r.Success? ==> WellFormed(r.value)
    decreases |es|
  {
    if es == [] then Success(g)
    else
      match ProjectedAll(g, es[..|es| - 1])
      case Failure(f) => Failure(f)
      case Success(h) => Projected(h, es[|es| - 1])
  }

  /** The entry loop runs to the end exactly when every entry is accepted. */
  lemma {:induction false} ProjectedAllSucceeds(g: Cells, es: seq<WorkEntry>)
    requires WellFormed(g) && AllOnGrid(es)
    ensures ProjectedAll(g, es).Success? <==> forall k :: 0 <= k < |es| ==> Accepted(es[k])
    decreases |es|
  {
    if es != [] {
      var init := es[..|es| - 1];
      ProjectedAllSucceeds(g, init);
      assert forall k :: 0 <= k < |init| ==> init[k] == es[k];
      match ProjectedAll(g, init)
      case Failure(_) =>
      case Success(h) => ProjectedSetsOneCell(h, es[|es| - 1]);
    }
  }

  /**
   * Later writes win: after the loop a cell holds the project of the last
   * entry targeting it, and keeps its old value when no entry targets it.
   */
  lemma {:induction false} LastEntryWins(g: Cells, es: seq<WorkEntry>, r: nat, c: nat)
    requires WellFormed(g) && AllOnGrid(es) && r < SlotCount && c < Columns
    requires ProjectedAll(g, es).Success?
    ensures forall j :: 0 <= j < |es| && Targets(es[j], r, c) &&
                        (forall k :: j < k < |es| ==> !Targets(es[k], r, c)) ==>
              ProjectedAll(g, es).value[r][c] == es[j].project
    ensures (forall k :: 0 <= k < |es| ==> !Targets(es[k], r, c)) ==>
              ProjectedAll(g, es).value[r][c] == g[r][c]
    decreases |es|
  {
    if es != [] {
      var n := |es| - 1;
      var init := es[..n];
      assert forall k :: 0 <= k < n ==> init[k] == es[k];
      var h := ProjectedAll(g, init).value;
      LastEntryWins(g, init, r, c);
      ProjectedSetsOneCell(h, es[n]);
    }
  }

  /**
   * One pass of the boundary loop (main.py:109-126). The weekday and the time
   * are checked for every event; only "Start" and "Ende" look up the slot and
   * write.
   */
  function AfterEvent(g: Cells, ev: BoundaryEvent): (r: Result<Cells, BuildError>)
    requires WellFormed(g)
    ensures r.Success? ==> WellFormed(r.value)
  {
    if ev.weekday >= Columns then Failure(WeekendDay)
    else if !HasTensDigit(ev.time) then Failure(MalformedTime)
    else
      match ParseClock(RoundBoundary(ev.time))
      case None => Failure(MalformedTime)
      case Some(m) =>
        if ev.status == StartStatus then
          match SlotOf(m)
          case None => Failure(NotASlot)
          case Some(i) => Success(AfterStart(g, ev.weekday, i, ev.time))
        else if ev.status == EndStatus then
          match SlotOf(m)
          case None => Failure(NotASlot)
          case Some(i) =>
            if i + 1 < SlotCount then Success(AfterEnd(g, ev.weekday, i, ev.time))
            else Failure(NoSlotAfter)
        else Success(g)
  }

  /**
   * For a stored (well-formed) time, the slot a Start event acts on is its
   * time floored to the half hour; a floored time outside 07:30..20:00 raises.
   */
  lemma StartEventEffect(g: Cells, ev: BoundaryEvent)
    requires WellFormed(g) && ev.status == StartStatus && ev.weekday < Columns
    requires ParseClock(ev.time).Some?
    ensures AfterEvent(g, ev) ==
              match SlotOf(FloorHalfHour(HourOf(ev.time), MinuteOf(ev.time)))
              case None => Failure(NotASlot)
              case Some(i) => Success(AfterStart(g, ev.weekday, i, ev.time))
  {
    RoundBoundaryFloors(ev.time);
  }

  /** The same for an Ende event, which also raises when its slot is the last one (20:00). */
  lemma EndEventEffect(g: Cells, ev: BoundaryEvent)
    requires WellFormed(g) && ev.status == EndStatus && ev.weekday < Columns
    requires ParseClock(ev.time).Some?
    ensures AfterEvent(g, ev) ==
              match SlotOf(FloorHalfHour(HourOf(ev.time), MinuteOf(ev.time)))
              case None => Failure(NotASlot)
              case Some(i) =>
                if i + 1 < SlotCount then Success(AfterEnd(g, ev.weekday, i, ev.time))
                else Failure(NoSlotAfter)
  {
    RoundBoundaryFloors(ev.time);
  }

  /** An Ende event logged between 20:00 and 20:29 always raises. */
  lemma EndAtLastSlotFails(g: Cells, ev: BoundaryEvent)
    requires WellFormed(g) && ev.status == EndStatus && ev.weekday < Columns
    requires ParseClock(ev.time).Some? && HourOf(ev.time) == 20 && MinuteOf(ev.time) < 30
    ensures AfterEvent(g, ev) == Failure(NoSlotAfter)
  {
    EndEventEffect(g, ev);
  }

  /**
   * An event of any other status never changes the table; it still raises
   * on a weekend day or a malformed time.
   */
  lemma OtherStatusIgnored(g: Cells, ev: BoundaryEvent)
    requires WellFormed(g) && ev.status != StartStatus && ev.status != EndStatus
    ensures AfterEvent(g, ev).Success? ==> AfterEvent(g, ev).value == g
    ensures ParseClock(ev.time).Some? ==> (AfterEvent(g, ev).Success? <==> ev.weekday < Columns)
  {
    if ParseClock(ev.time).Some? {
      RoundBoundaryFloors(ev.time);
    }
  }

  /** Every event on a Saturday or Sunday raises, whatever its time or status. */
  lemma WeekendEventFails(g: Cells, ev: BoundaryEvent)
    requires WellFormed(g) && ev.weekday >= Columns
    ensures AfterEvent(g, ev) == Failure(WeekendDay)
  {
  }

  /** The boundary loop of main.py:108-126, event after event; the first exception ends it. */
  function AfterEvents(g: Cells, evs: seq<BoundaryEvent>): (r: Result<Cells, BuildError>)
    requires WellFormed(g)
    ensures r.Success? ==> WellFormed(r.value)
    decreases |evs|
  {
    if evs == [] then Success(g)
    else
      match AfterEvents(g, evs[..|evs| - 1])
      case Failure(f) => Failure(f)
      case Success(h) => AfterEvent(h, evs[|evs| - 1])
  }

  /** Entries first, then boundary events, starting from the table g. */
  function Filled(g: Cells, es: seq<WorkEntry>, evs: seq<BoundaryEvent>): (r: Result<Cells, BuildError>)
    requires WellFormed(g) && AllOnGrid(es)
    ensures r.Success? ==> WellFormed(r.value)
  {
    match ProjectedAll(g, es)
    case Failure(f) => Failure(f)
    case Success(h) => AfterEvents(h, evs)
  }

  /** The table `create_timetable_df` returns, or the exception it raises. */
  function WeeklyGrid(es: seq<WorkEntry>, evs: seq<BoundaryEvent>): (r: Result<Cells, BuildError>)
    requires AllOnGrid(es)
    ensures r.Success? ==> WellFormed(r.value)
  {
    Filled(EmptyGrid(), es, evs)
  }

  /**
   * Boundary events come after all entries, so they overwrite entry cells:
   * with one Start event at slot i >= 1, the cell before i holds the raw
   * time whatever entries targeted it, and the cells above it hold "/".
   */
  lemma BoundaryOverridesEntries(es: seq<WorkEntry>, ev: BoundaryEvent, i: nat)
    requires AllOnGrid(es) && ev.status == StartStatus && ev.weekday < Columns
    requires ParseClock(ev.time).Some? && 1 <= i < SlotCount
    requires SlotOf(FloorHalfHour(HourOf(ev.time), MinuteOf(ev.time))) == Some(i)
    requires forall k :: 0 <= k < |es| ==> Accepted(es[k])
    ensures WeeklyGrid(es, [ev]).Success?
    ensures WeeklyGrid(es, [ev]).value[i - 1][ev.weekday] == ev.time
    ensures forall x :: 0 <= x < i - 1 ==> WeeklyGrid(es, [ev]).value[x][ev.weekday] == Slash
  {
    ProjectedAllSucceeds(EmptyGrid(), es);
    var h := ProjectedAll(EmptyGrid(), es).value;
    assert ProjectedAll(EmptyGrid(), es) == Success(h);
    assert [ev][..0] == [];
    assert AfterEvents(h, [ev]) == AfterEvent(h, ev);
    StartEventEffect(h, ev);
    StartEffect(h, ev.weekday, i, ev.time);
  }
}
