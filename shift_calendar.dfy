/**
 * The selection logic of the week calendar (src/components/shifts/ShiftCalendar.tsx):
 * the week range around the current date, the consecutive dates of that range,
 * week navigation, the per-cell filter and the role-based visibility filter.
 *
 * Calendar dates are day numbers: day 0 is Thursday 1970-01-01, so the weekday
 * of day d (0 = Sunday, as `getDay` counts) is (d + 4) % 7. Assignment dates
 * stay "YYYY-MM-DD" strings, as in the store.
 */
module ShiftCalendar {
  import opened Types
  import opened ArrayOps

  /** `getDay()`: 0 for Sunday through 6 for Saturday. */
  function Weekday(d: int): (r: nat)
    ensures r < 7
    ensures (d - r) % 7 == 3
  {
    (d + 4) % 7
  }

  /** The start of the week containing d: d minus its weekday, a Sunday. */
  function WeekStart(d: int): (r: int)
    ensures Weekday(r) == 0
    ensures r <= d < r + 7
  {
    d - Weekday(d)
  }

  /** Any Sunday at most six days before d is d's week start. */
  lemma WeekStartUnique(d: int, s: int)
    requires Weekday(s) == 0 && s <= d < s + 7
    ensures WeekStart(d) == s
  {
    var w := WeekStart(d);
    assert (s - w) % 7 == 0 by {
      assert (s + 4) % 7 == 0 && (w + 4) % 7 == 0;
    }
    assert -7 < s - w < 7;
  }

  /** Moving a week forward moves the week start a week forward. */
  lemma WeekStartNext(d: int)
    ensures WeekStart(d + 7) == WeekStart(d) + 7
  {
    WeekStartUnique(d + 7, WeekStart(d) + 7);
  }

  /**
   * `getDatesInRange`: a cursor starts at `rangeStart` and is pushed, then
   * moved a day on, while it is not past `rangeEnd`.
   */
  method DatesInRange(rangeStart: int, rangeEnd: int) returns (dates: seq<int>)
    ensures |dates| == if rangeStart <= rangeEnd then rangeEnd - rangeStart + 1 else 0
    ensures forall k :: 0 <= k < |dates| ==> dates[k] == rangeStart + k
    ensures forall d :: d in dates <==> rangeStart <= d <= rangeEnd
    ensures forall k, m :: 0 <= k < m < |dates| ==> dates[k] < dates[m]
  {
    dates := [];
    var cursor := rangeStart;
    while cursor <= rangeEnd
      invariant cursor == rangeStart + |dates|
      invariant rangeStart > rangeEnd ==> dates == []
      invariant rangeStart <= rangeEnd ==> cursor <= rangeEnd + 1
      invariant forall k :: 0 <= k < |dates| ==> dates[k] == rangeStart + k
      decreases rangeEnd - cursor
    {
      dates := dates + [cursor];
      cursor := cursor + 1;
    }
    forall d | rangeStart <= d <= rangeEnd
      ensures d in dates
    {
      assert dates[d - rangeStart] == d;
    }
  }

  /** The week view's own state: the date it is centred on (time of day dropped). */
  class CalendarView {
    var currentDate: int

    constructor(today: int)
      ensures currentDate == today
    {
      currentDate := today;
    }

    /** `getDateRange` in week mode: from the Sunday of the current week to the Saturday six days later. */
    function DateRange(): (r: (int, int))
      reads this
      ensures Weekday(r.0) == 0 && r.1 == r.0 + 6
      ensures r.0 <= currentDate <= r.1
    {
      var rangeStart := WeekStart(currentDate);
      (rangeStart, rangeStart + 6)
    }

    /** `navigatePrevious` in week mode: seven days back. */
    method NavigatePrevious()
      modifies this
      ensures currentDate == old(currentDate) - 7
    {
      currentDate := currentDate - 7;
    }

    /** `navigateNext` in week mode: seven days on. */
    method NavigateNext()
      modifies this
      ensures currentDate == old(currentDate) + 7
      ensures DateRange().0 == old(DateRange().0) + 7
    {
      currentDate := currentDate + 7;
      WeekStartNext(old(currentDate));
    }
  }

  /** Next then previous brings the view back to the date it showed. */
  method NextThenPrevious(view: CalendarView)
    modifies view
    ensures view.currentDate == old(view.currentDate)
    ensures view.DateRange() == old(view.DateRange())
  {
    view.NavigateNext();
    view.NavigatePrevious();
  }

  /** The days a week view lists: seven consecutive days, Sunday first, the current date among them. */
  method WeekDates(view: CalendarView) returns (dates: seq<int>)
    ensures |dates| == 7 && Weekday(dates[0]) == 0
    ensures forall k :: 0 <= k < 7 ==> dates[k] == dates[0] + k
    ensures view.currentDate in dates
  {
    var (rangeStart, rangeEnd) := view.DateRange();
    dates := DatesInRange(rangeStart, rangeEnd);
  }

  /**
   * `getAssignmentsForDateAndShift`: the assignments of one calendar cell, in
   * store order. `dateString` is the cell's date as an ISO date string.
   */
  function AssignmentsForDateAndShift(assignments: seq<ShiftAssignment>, dateString: string, shiftId: string): (r: seq<ShiftAssignment>)
    ensures forall a :: a in r <==> a in assignments && a.date == dateString && a.shiftId == shiftId
    ensures forall a: ShiftAssignment :: a.date == dateString && a.shiftId == shiftId ==> multiset(r)[a] == multiset(assignments)[a]
    ensures IsSubsequence(r, assignments)
  {
    var inCell := (a: ShiftAssignment) => a.date == dateString && a.shiftId == shiftId;
    FilterMultiset(inCell, assignments);
    FilterSubsequence(inCell, assignments);
    Filter(inCell, assignments)
  }

  /** Two cells of the same day with different shifts share no assignment. */
  lemma CellsDisjoint(assignments: seq<ShiftAssignment>, dateString: string, shiftId: string, otherShiftId: string)
    requires shiftId != otherShiftId
    ensures forall a :: a in AssignmentsForDateAndShift(assignments, dateString, shiftId) ==>
      a !in AssignmentsForDateAndShift(assignments, dateString, otherShiftId)
  {
  }

  /** The user id `a.userId === currentUser?.id` compares against: none when nobody is signed in. */
  function CurrentUserId(currentUser: Option<User>): Option<string>
  {
    if currentUser.Some? then Some(currentUser.value.id) else None
  }

  /**
   * `filterAssignmentsByUser`: an admin sees everything; anyone else sees only
   * their own assignments, in order; with nobody signed in no assignment
   * matches (an assignment's user id is never `undefined`).
   */
  function FilterAssignmentsByUser(assignments: seq<ShiftAssignment>, currentUser: Option<User>): (r: seq<ShiftAssignment>)
    ensures currentUser.Some? && currentUser.value.role == Admin ==> r == assignments
    ensures currentUser.None? ==> r == []
    ensures currentUser.Some? && currentUser.value.role != Admin ==>
      (forall a :: a in r <==> a in assignments && a.userId == currentUser.value.id)
    ensures currentUser.Some? && currentUser.value.role != Admin ==>
      (forall a: ShiftAssignment :: a.userId == currentUser.value.id ==> multiset(r)[a] == multiset(assignments)[a])
    ensures IsSubsequence(r, assignments)
  {
    if currentUser.Some? && currentUser.value.role == Admin then
      FilterSubsequence((a: ShiftAssignment) => true, assignments);
      FilterKeepsAll((a: ShiftAssignment) => true, assignments);
      assignments
    else
      var own := (a: ShiftAssignment) => Some(a.userId) == CurrentUserId(currentUser);
      FilterSubsequence(own, assignments);
      FilterMultiset(own, assignments);
      if currentUser.None? then
        FilterKeepsNone(own, assignments);
        Filter(own, assignments)
      else
        Filter(own, assignments)
  }
}
