/**
 * `create_timetable_df` (main.py:53-128) as the program runs it: a table
 * object whose cells are updated one `.loc` assignment at a time, first by
 * the entry loop and then by the boundary-event loop.
 */
module WeeklyTimetable {
  import opened Wrappers
  import opened ClockText
  import opened Calendar
  import opened Grid

  class Timetable {
    /** The column dates, Monday to Friday, as day numbers. */
    var days: seq<int>
    /** The row labels, "07:30" to "20:00". */
    var rows: seq<string>
    /** The cells, indexed [row, column]. */
    var cells: array2<string>

    ghost predicate Valid()
      reads this
    {
      && cells.Length0 == SlotCount && cells.Length1 == Columns
      && |days| == Columns
      && |rows| == SlotCount && (forall k :: 0 <= k < SlotCount ==> rows[k] == SlotLabel(k))
    }

    /** The cells as a value. */
    ghost function Contents(): (g: Cells)
      reads this, cells
      requires Valid()
      ensures WellFormed(g)
      ensures forall r, c :: 0 <= r < SlotCount && 0 <= c < Columns ==> g[r][c] == cells[r, c]
    {
      var a := cells;
      seq(SlotCount, r requires 0 <= r < SlotCount reads a =>
        seq(Columns, c requires 0 <= c < Columns reads a => a[r, c]))
    }

    /**
     * The empty table of main.py:55-75: columns dated Monday plus 0..4 days,
     * the 26 slot labels as rows, every cell "".
     */
    constructor (monday: int)
      ensures Valid() && fresh(cells)
      ensures forall j :: 0 <= j < Columns ==> days[j] == monday + j
      ensures Contents() == EmptyGrid()
    {
      var dates := WeekDates(monday);
      var times := SlotTimes();
      days := dates;
      rows := seq(SlotCount, k requires 0 <= k < SlotCount => Format(times[k]));
      cells := new string[SlotCount, Columns]((r, c) => "");
      new;
      assert forall r :: 0 <= r < SlotCount ==> Contents()[r] == EmptyGrid()[r];
    }

    /** One `.loc[row, column] = v` assignment. */
    method Put(r: nat, c: nat, v: string)
      requires Valid() && r < SlotCount && c < Columns
      modifies cells
      ensures Valid() && Contents() == SetCell(old(Contents()), r, c, v)
    {
      cells[r, c] := v;
      assert forall x :: 0 <= x < SlotCount ==> Contents()[x] == SetCell(old(Contents()), r, c, v)[x];
    }

    /** "/" into rows lo..hi-1 of column c, one row after the other. */
    method Mark(c: nat, lo: nat, hi: nat)
      requires Valid() && c < Columns && lo <= hi <= SlotCount
      modifies cells
      ensures Valid() && Contents() == FillSlash(old(Contents()), c, lo, hi)
    {
      for r := lo to hi
        invariant Valid()
        invariant Contents() == FillSlash(old(Contents()), c, lo, r)
      {
        Put(r, c, Slash);
      }
    }

    /** One pass of the entry loop (main.py:92-100). */
    method Project(e: WorkEntry) returns (res: Outcome<BuildError>)
      requires Valid() && OnGrid(e)
      modifies cells
      ensures Valid()
      ensures res == Projected(old(Contents()), e).ToOutcome()
      ensures Contents() == Projected(old(Contents()), e).GetOr(old(Contents()))
    {
      var time := ParseClock(e.time);
      if time.None? {
        return Fail(MalformedTime);
      }
      if e.weekday >= Columns {
        return Fail(WeekendDay);
      }
      Put(SlotOf(time.value).value, e.weekday, e.project);
      res := Pass;
    }

    /** A "Start" event at slot i in column c (main.py:120-122). */
    method ApplyStart(c: nat, i: nat, raw: string)
      requires Valid() && c < Columns && i < SlotCount
      modifies cells
      ensures Valid() && Contents() == AfterStart(old(Contents()), c, i, raw)
    {
      var t := PyIndex(i - 1);
      Put(t, c, raw);
      Mark(c, 0, t);
    }

    /** An "Ende" event at slot i in column c (main.py:124-126). */
    method ApplyEnd(c: nat, i: nat, raw: string)
      requires Valid() && c < Columns && i + 1 < SlotCount
      modifies cells
      ensures Valid() && Contents() == AfterEnd(old(Contents()), c, i, raw)
    {
      Put(i + 1, c, raw);
      Mark(c, i + 2, SlotCount);
    }

    /** One pass of the boundary loop (main.py:109-126), rounding included. */
    method ApplyEvent(ev: BoundaryEvent) returns (res: Outcome<BuildError>)
      requires Valid()
      modifies cells
      ensures Valid()
      ensures res == AfterEvent(old(Contents()), ev).ToOutcome()
      ensures Contents() == AfterEvent(old(Contents()), ev).GetOr(old(Contents()))
    {
      if ev.weekday >= Columns {
        return Fail(WeekendDay);
      }
      if !HasTensDigit(ev.time) {
        return Fail(MalformedTime);
      }
      var time := ParseClock(RoundBoundary(ev.time));
      if time.None? {
        return Fail(MalformedTime);
      }
      if ev.status == StartStatus {
        var i := SlotOf(time.value);
        if i.None? {
          return Fail(NotASlot);
        }
        ApplyStart(ev.weekday, i.value, ev.time);
      } else if ev.status == EndStatus {
        var i := SlotOf(time.value);
        if i.None? {
          return Fail(NotASlot);
        }
        if i.value + 1 >= SlotCount {
          return Fail(NoSlotAfter);
        }
        ApplyEnd(ev.weekday, i.value, ev.time);
      }
      res := Pass;
    }

    /**
     * The two loops of main.py:91-126: every entry is projected, then every
     * boundary event applied; the first exception stops the construction.
     */
    method Build(es: seq<WorkEntry>, evs: seq<BoundaryEvent>) returns (res: Outcome<BuildError>)
      requires Valid() && AllOnGrid(es)
      modifies cells
      ensures Valid()
      ensures res == Filled(old(Contents()), es, evs).ToOutcome()
      ensures res.Pass? ==> Contents() == Filled(old(Contents()), es, evs).value
    {
      ghost var g0 := Contents();
      for k := 0 to |es|
        invariant Valid()
        invariant ProjectedAll(g0, es[..k]) == Success(Contents())
      {
        assert es[..k + 1][..k] == es[..k];
        res := Project(es[k]);
        if res.Fail? {
          ProjectedAllKeepsFailure(g0, es, k + 1);
          return;
        }
      }
      assert es[..|es|] == es;
      ghost var g1 := Contents();
      for k := 0 to |evs|
        invariant Valid()
        invariant AfterEvents(g1, evs[..k]) == Success(Contents())
      {
        assert evs[..k + 1][..k] == evs[..k];
        res := ApplyEvent(evs[k]);
        if res.Fail? {
          AfterEventsKeepsFailure(g1, evs, k + 1);
          return;
        }
      }
      assert evs[..|evs|] == evs;
      res := Pass;
    }
  }

  /** Once the entry loop has raised, later entries do not matter. */
  lemma {:induction false} ProjectedAllKeepsFailure(g: Cells, es: seq<WorkEntry>, n: nat)
    requires WellFormed(g) && AllOnGrid(es) && n <= |es|
    requires ProjectedAll(g, es[..n]).Failure?
    ensures ProjectedAll(g, es) == ProjectedAll(g, es[..n])
    decreases |es| - n
  {
    if n < |es| {
      assert es[..n + 1][..n] == es[..n];
      ProjectedAllKeepsFailure(g, es, n + 1);
    } else {
      assert es[..n] == es;
    }
  }

  /** Once the boundary loop has raised, later events do not matter. */
  lemma {:induction false} AfterEventsKeepsFailure(g: Cells, evs: seq<BoundaryEvent>, n: nat)
    requires WellFormed(g) && n <= |evs|
    requires AfterEvents(g, evs[..n]).Failure?
    ensures AfterEvents(g, evs) == AfterEvents(g, evs[..n])
    decreases |evs| - n
  {
    if n < |evs| {
      assert evs[..n + 1][..n] == evs[..n];
      AfterEventsKeepsFailure(g, evs, n + 1);
    } else {
      assert evs[..n] == evs;
    }
  }

  /**
   * `create_timetable_df` for the week starting on day `monday`, given the
   * week's work entries and boundary events: a fresh table holding
   * `WeeklyGrid(es, evs)`, or the exception that function raises.
   */
  method CreateTimetable(monday: int, es: seq<WorkEntry>, evs: seq<BoundaryEvent>)
      returns (t: Timetable, res: Outcome<BuildError>)
    requires AllOnGrid(es)
    ensures fresh(t) && t.Valid()
    ensures forall j :: 0 <= j < Columns ==> t.days[j] == monday + j
    ensures res == WeeklyGrid(es, evs).ToOutcome()
    ensures res.Pass? ==> t.Contents() == WeeklyGrid(es, evs).value
  {
    t := new Timetable(monday);
    res := t.Build(es, evs);
  }
}
