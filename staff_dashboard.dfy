/**
 * The staff dashboard's selections (src/components/dashboard/StaffDashboard.tsx):
 * the signed-in user's assignments, the upcoming ones sorted by date, the next
 * one, and the first five passed on to the upcoming-shifts list.
 *
 * Dates are "YYYY-MM-DD" strings; `a.date >= todayStr` and
 * `a.date.localeCompare(b.date)` both order them as `LexLe` does.
 */
module StaffDashboard {
  import opened Types
  import opened ArrayOps
  import opened Strings

  /** `getUserShifts`: nothing without a signed-in user, otherwise the user's own assignments in store order. */
  function UserShifts(assignments: seq<ShiftAssignment>, currentUser: Option<User>): (r: seq<ShiftAssignment>)
    ensures currentUser.None? ==> r == []
    ensures currentUser.Some? ==> forall a :: a in r <==> a in assignments && a.userId == currentUser.value.id
    ensures currentUser.Some? ==> forall a: ShiftAssignment :: a.userId == currentUser.value.id ==> multiset(r)[a] == multiset(assignments)[a]
    ensures IsSubsequence(r, assignments)
  {
    if currentUser.None? then
      []
    else
      var own := (a: ShiftAssignment) => a.userId == currentUser.value.id;
      FilterMultiset(own, assignments);
      FilterSubsequence(own, assignments);
      Filter(own, assignments)
  }

  /** Non-decreasing by date string. */
  predicate SortedByDate(s: seq<ShiftAssignment>)
  {
    forall i :: 0 < i < |s| ==> LexLe(s[i - 1].date, s[i].date)
  }

  /** Inserts x before the first element whose date is not earlier than x's. */
  function Insert(x: ShiftAssignment, s: seq<ShiftAssignment>): (r: seq<ShiftAssignment>)
    requires SortedByDate(s)
    ensures SortedByDate(r)
    ensures multiset(r) == multiset(s) + multiset{x}
    ensures |r| == |s| + 1
    ensures r[0] == x || (|s| > 0 && r[0] == s[0])
  {
    if s == [] then [x]
    else if LexLe(x.date, s[0].date) then [x] + s
    else
      LexLeTotal(x.date, s[0].date);
      var rest := Insert(x, s[1..]);
      assert s == [s[0]] + s[1..];
      [s[0]] + rest
  }

  /**
   * `.sort((a, b) => a.date.localeCompare(b.date))`, as a stable insertion
   * sort: the result is ordered by date and holds exactly the input's elements.
   */
  function SortByDate(s: seq<ShiftAssignment>): (r: seq<ShiftAssignment>)
    ensures SortedByDate(r)
    ensures multiset(r) == multiset(s)
    ensures |r| == |s|
  {
    if s == [] then []
    else
      assert s == [s[0]] + s[1..];
      Insert(s[0], SortByDate(s[1..]))
  }

  /** In a list sorted by date, the first date is not later than any other. */
  lemma {:induction false} SortedFirstIsEarliest(s: seq<ShiftAssignment>, k: nat)
    requires SortedByDate(s) && k < |s|
    ensures LexLe(s[0].date, s[k].date)
  {
    if k == 0 {
      LexLeReflexive(s[0].date);
    } else {
      SortedFirstIsEarliest(s, k - 1);
      LexLeTransitive(s[0].date, s[k - 1].date, s[k].date);
    }
  }

  /** The user's assignment is upcoming: dated today or later. */
  predicate IsUpcoming(a: ShiftAssignment, currentUser: Option<User>, todayStr: string)
  {
    currentUser.Some? && a.userId == currentUser.value.id && LexLe(todayStr, a.date)
  }

  /**
   * `getUpcomingShifts`: the user's assignments dated on or after `todayStr`
   * (the ISO date of the clock's today), sorted by date; each one appears as
   * often as in the store.
   */
  function UpcomingShifts(assignments: seq<ShiftAssignment>, currentUser: Option<User>, todayStr: string): (r: seq<ShiftAssignment>)
    ensures forall a :: a in r <==> a in assignments && IsUpcoming(a, currentUser, todayStr)
    ensures forall a :: IsUpcoming(a, currentUser, todayStr) ==> multiset(r)[a] == multiset(assignments)[a]
    ensures SortedByDate(r)
  {
    var mine := UserShifts(assignments, currentUser);
    var notPast := (a: ShiftAssignment) => LexLe(todayStr, a.date);
    FilterMultiset(notPast, mine);
    var upcoming := Filter(notPast, mine);
    var r := SortByDate(upcoming);
    assert forall a :: a in r <==> a in multiset(r);
    r
  }

  /**
   * `getNextShift`: none exactly when there is no upcoming assignment;
   * otherwise an upcoming assignment whose date is not later than any other's.
   */
  function NextShift(assignments: seq<ShiftAssignment>, currentUser: Option<User>, todayStr: string): (r: Option<ShiftAssignment>)
    ensures r.None? <==> forall a :: a in assignments ==> !IsUpcoming(a, currentUser, todayStr)
    ensures r.Some? ==> r.value in assignments && IsUpcoming(r.value, currentUser, todayStr)
    ensures r.Some? ==> forall a :: a in assignments && IsUpcoming(a, currentUser, todayStr) ==> LexLe(r.value.date, a.date)
  {
    var upcoming := UpcomingShifts(assignments, currentUser, todayStr);
    if |upcoming| > 0 then
      assert upcoming[0] in upcoming;
      assert forall a :: a in upcoming ==> LexLe(upcoming[0].date, a.date) by {
        forall a | a in upcoming
          ensures LexLe(upcoming[0].date, a.date)
        {
          var k :| 0 <= k < |upcoming| && upcoming[k] == a;
          SortedFirstIsEarliest(upcoming, k);
        }
      }
      Some(upcoming[0])
    else
      None
  }

  /** `upcomingShifts.slice(0, 5)`: the first five, or all of them when there are fewer. */
  function FirstFive(upcoming: seq<ShiftAssignment>): (r: seq<ShiftAssignment>)
    ensures |r| == if |upcoming| < 5 then |upcoming| else 5
    ensures r <= upcoming
    ensures SortedByDate(upcoming) ==> SortedByDate(r)
  {
    if |upcoming| < 5 then upcoming else upcoming[..5]
  }
}
