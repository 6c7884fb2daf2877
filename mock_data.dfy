/**
 * The seed data (src/data/mockData.ts): four users, three shifts, one
 * template, and the loop that fills the seed assignments for 14 days.
 */
module MockData {
  import opened Types
  import opened ArrayOps
  import opened Strings

  const MockUsers: seq<User> := [
    User("1", "John Admin", "admin@vilcom.com", Admin, "SOC"),
    User("2", "Alice Analyst", "alice@vilcom.com", Staff, "SOC"),
    User("3", "Bob Security", "bob@vilcom.com", Staff, "SOC"),
    User("4", "Carol Engineer", "carol@vilcom.com", Staff, "SOC")
  ]

  const MockShifts: seq<Shift> := [
    Shift("1", "Morning", "06:00", "14:00", "#0D9488"),
    Shift("2", "Afternoon", "14:00", "22:00", "#4F46E5"),
    Shift("3", "Night", "22:00", "06:00", "#7E22CE")
  ]

  const MockShiftTemplates: seq<ShiftTemplate> := [
    ShiftTemplate("1", "Standard Rotation", MockShifts, 2)
  ]

  /** The number of days the seed loop covers. */
  const SeedDays: nat := 14

  /** The seed template bundles all three seed shifts, two people each. */
  lemma SeedTemplate()
    ensures |MockShiftTemplates| == 1
    ensures MockShiftTemplates[0].shifts == MockShifts && MockShiftTemplates[0].staffRequired == 2
    ensures Map((s: Shift) => s.id, MockShiftTemplates[0].shifts) == ["1", "2", "3"]
  {
  }

  predicate IsStaff(u: User)
  {
    u.role == Staff
  }

  function UserId(u: User): string
  {
    u.id
  }

  /** `users.filter(u => u.role === 'staff').map(u => u.id)`. */
  function StaffUserIds(users: seq<User>): seq<string>
  {
    Map(UserId, Filter(IsStaff, users))
  }

  /** The staff ids are exactly the ids of the users whose role is staff. */
  lemma StaffUserIdsMembers(users: seq<User>)
    ensures |StaffUserIds(users)| <= |users|
    ensures forall k :: 0 <= k < |StaffUserIds(users)| ==>
      exists u :: u in users && u.role == Staff && u.id == StaffUserIds(users)[k]
    ensures forall u :: u in users && u.role == Staff ==> u.id in StaffUserIds(users)
  {
    var staff := Filter(IsStaff, users);
    var ids := StaffUserIds(users);
    forall k | 0 <= k < |ids|
      ensures exists u :: u in users && u.role == Staff && u.id == ids[k]
    {
      assert staff[k] in staff;
    }
    forall u | u in users && u.role == Staff
      ensures u.id in ids
    {
      assert u in staff;
      var k :| 0 <= k < |staff| && staff[k] == u;
      assert ids[k] == u.id;
    }
  }

  /** The staff of a roster whose first user is the only non-staff one: everyone after the first. */
  lemma StaffAfterFirst(u: seq<User>)
    requires |u| > 0 && !IsStaff(u[0])
    requires forall k :: 0 < k < |u| ==> IsStaff(u[k])
    ensures Filter(IsStaff, u) == u[1..]
  {
    var rest := u[1..];
    assert forall x :: x in rest ==> IsStaff(x);
    FilterKeepsAll(IsStaff, rest);
    FilterCons(IsStaff, u[0], rest);
    assert u == [u[0]] + rest;
  }

  /** The staff ids of a four-user roster whose first user is the only non-staff one. */
  lemma StaffIdsOfFour(u: seq<User>)
    requires |u| == 4 && !IsStaff(u[0]) && IsStaff(u[1]) && IsStaff(u[2]) && IsStaff(u[3])
    ensures StaffUserIds(u) == [u[1].id, u[2].id, u[3].id]
  {
    var staff := Filter(IsStaff, u);
    assert staff == u[1..] by {
      StaffAfterFirst(u);
    }
    var ids := Map(UserId, staff);
    assert |ids| == 3 && ids[0] == u[1].id && ids[1] == u[2].id && ids[2] == u[3].id;
  }

  /** The seed roster is users 2, 3 and 4. */
  lemma MockStaffUserIds()
    ensures StaffUserIds(MockUsers) == ["2", "3", "4"]
  {
    StaffIdsOfFour(MockUsers);
  }

  /** The id prefix of the morning, afternoon and night seed assignment. */
  function SeedPrefix(k: nat): string
    requires k < 3
  {
    if k == 0 then "m-" else if k == 1 then "a-" else "n-"
  }

  /**
   * The three assignments one iteration of the seed loop pushes for day `i`:
   * shift k (morning "1", afternoon "2", night "3") goes to `userIds[(i + k) % |userIds|]`.
   */
  function SeedDay(userIds: seq<string>, i: nat, date: string): seq<ShiftAssignment>
    requires |userIds| > 0
  {
    [ ShiftAssignment(SeedPrefix(0) + NatToString(i), userIds[i % |userIds|], "1", date, Scheduled),
      ShiftAssignment(SeedPrefix(1) + NatToString(i), userIds[(i + 1) % |userIds|], "2", date, Scheduled),
      ShiftAssignment(SeedPrefix(2) + NatToString(i), userIds[(i + 2) % |userIds|], "3", date, Scheduled) ]
  }

  /** The seed assignments after `n` iterations; `dateOf(i)` is the date string the app computes for day i. */
  function SeedUpTo(userIds: seq<string>, n: nat, dateOf: int -> string): seq<ShiftAssignment>
    requires |userIds| > 0
  {
    if n == 0 then [] else SeedUpTo(userIds, n - 1, dateOf) + SeedDay(userIds, n - 1, dateOf(n - 1))
  }

  /**
   * The module-level loop that fills `mockShiftAssignments`: for each of the
   * 14 days it pushes the morning, afternoon and night assignment in turn.
   * `userIds` is the module-level staff id list, `StaffUserIds(MockUsers)`
   * (evaluated by `MockStaffUserIds`).
   */
  method PopulateMockShiftAssignments(userIds: seq<string>, dateOf: int -> string) returns (mockShiftAssignments: seq<ShiftAssignment>)
    requires |userIds| > 0
    ensures mockShiftAssignments == SeedUpTo(userIds, SeedDays, dateOf)
  {
    mockShiftAssignments := [];
    var i := 0;
    while i < SeedDays
      invariant 0 <= i <= SeedDays
      invariant mockShiftAssignments == SeedUpTo(userIds, i, dateOf)
    {
      var dateString := dateOf(i);
      mockShiftAssignments := mockShiftAssignments + [ShiftAssignment("m-" + NatToString(i), userIds[i % |userIds|], "1", dateString, Scheduled)];
      mockShiftAssignments := mockShiftAssignments + [ShiftAssignment("a-" + NatToString(i), userIds[(i + 1) % |userIds|], "2", dateString, Scheduled)];
      mockShiftAssignments := mockShiftAssignments + [ShiftAssignment("n-" + NatToString(i), userIds[(i + 2) % |userIds|], "3", dateString, Scheduled)];
      assert mockShiftAssignments == SeedUpTo(userIds, i, dateOf) + SeedDay(userIds, i, dateString);
      i := i + 1;
    }
  }

  /** Three seed assignments per day. */
  lemma {:induction false} SeedLength(userIds: seq<string>, n: nat, dateOf: int -> string)
    requires |userIds| > 0
    ensures |SeedUpTo(userIds, n, dateOf)| == 3 * n
  {
    if n > 0 {
      SeedLength(userIds, n - 1, dateOf);
    }
  }

  /** Position 3i + k of the seed set is shift k of day i. */
  lemma {:induction false} SeedAt(userIds: seq<string>, n: nat, dateOf: int -> string, i: nat, k: nat)
    requires |userIds| > 0 && i < n && k < 3
    ensures |SeedUpTo(userIds, n, dateOf)| == 3 * n
    ensures SeedUpTo(userIds, n, dateOf)[3 * i + k] == SeedDay(userIds, i, dateOf(i))[k]
  {
    SeedLength(userIds, n - 1, dateOf);
    if i < n - 1 {
      SeedAt(userIds, n - 1, dateOf, i, k);
    }
  }

  /** Every seed assignment is scheduled. */
  lemma {:induction false} SeedAllScheduled(userIds: seq<string>, n: nat, dateOf: int -> string)
    requires |userIds| > 0
    ensures forall a :: a in SeedUpTo(userIds, n, dateOf) ==> a.status == Scheduled
  {
    if n > 0 {
      SeedAllScheduled(userIds, n - 1, dateOf);
    }
  }

  /**
   * Position 3i + k of the seed set: shift k ("1", "2", "3") of day i, dated
   * `dateOf(i)`, scheduled, going to `userIds[(i + k) % |userIds|]`.
   */
  lemma SeedEntry(userIds: seq<string>, n: nat, dateOf: int -> string, i: nat, k: nat)
    requires |userIds| > 0 && i < n && k < 3
    ensures 3 * i + k < |SeedUpTo(userIds, n, dateOf)|
    ensures var a := SeedUpTo(userIds, n, dateOf)[3 * i + k];
      a.shiftId == ["1", "2", "3"][k] && a.date == dateOf(i) && a.status == Scheduled &&
      a.userId == userIds[(i + k) % |userIds|]
  {
    SeedAt(userIds, n, dateOf, i, k);
    SeedDayFields(userIds, i, dateOf(i), k);
  }

  /** Shift k of one seed day: shift id "1", "2" or "3", the day's date, user userIds[(i + k) % |userIds|]. */
  lemma SeedDayFields(userIds: seq<string>, i: nat, date: string, k: nat)
    requires |userIds| > 0 && k < 3
    ensures var a := SeedDay(userIds, i, date)[k];
      a.shiftId == ["1", "2", "3"][k] && a.date == date && a.status == Scheduled &&
      a.userId == userIds[(i + k) % |userIds|]
  {
    if k == 0 {
      assert i + k == i;
    }
  }

  /** The seed set built from the seed roster: 42 scheduled assignments with pairwise distinct ids. */
  lemma MockSeedSize(dateOf: int -> string)
    ensures |SeedUpTo(["2", "3", "4"], SeedDays, dateOf)| == 42
    ensures forall a :: a in SeedUpTo(["2", "3", "4"], SeedDays, dateOf) ==> a.status == Scheduled
    ensures forall p, q :: 0 <= p < q < 42 ==>
      SeedUpTo(["2", "3", "4"], SeedDays, dateOf)[p].id != SeedUpTo(["2", "3", "4"], SeedDays, dateOf)[q].id
  {
    SeedLength(["2", "3", "4"], SeedDays, dateOf);
    SeedAllScheduled(["2", "3", "4"], SeedDays, dateOf);
    SeedIdsDistinct(["2", "3", "4"], SeedDays, dateOf);
  }

  /** With three staff, the three shifts of one seed day go to three different people. */
  lemma SeedDayDistinctStaff(i: nat, date: string)
    ensures var day := SeedDay(["2", "3", "4"], i, date);
      day[0].userId != day[1].userId && day[1].userId != day[2].userId && day[0].userId != day[2].userId
  {
    var r := i % 3;
    assert (i + 1) % 3 == (r + 1) % 3 && (i + 2) % 3 == (r + 2) % 3;
  }

  /** The id of the seed assignment at position p: prefix of shift p % 3, then day p / 3. */
  lemma SeedIdAt(userIds: seq<string>, n: nat, dateOf: int -> string, p: nat)
    requires |userIds| > 0 && p < 3 * n
    ensures |SeedUpTo(userIds, n, dateOf)| == 3 * n
    ensures SeedUpTo(userIds, n, dateOf)[p].id == SeedPrefix(p % 3) + NatToString(p / 3)
  {
    var i, k := p / 3, p % 3;
    assert p == 3 * i + k;
    SeedAt(userIds, n, dateOf, i, k);
  }

  /** Seed ids built from different (shift, day) pairs differ. */
  lemma SeedIdsDiffer(k: nat, i: nat, k': nat, i': nat)
    requires k < 3 && k' < 3 && (k != k' || i != i')
    ensures SeedPrefix(k) + NatToString(i) != SeedPrefix(k') + NatToString(i')
  {
    var x, y := SeedPrefix(k) + NatToString(i), SeedPrefix(k') + NatToString(i');
    if k != k' {
      assert x[0] != y[0];
    } else {
      assert x[2..] == NatToString(i) && y[2..] == NatToString(i');
      if NatToString(i) == NatToString(i') {
        NatToStringInjective(i, i');
      }
    }
  }

  /** No two seed assignments share an id: the ids are m-i, a-i and n-i. */
  lemma SeedIdsDistinct(userIds: seq<string>, n: nat, dateOf: int -> string)
    requires |userIds| > 0
    ensures forall p, q :: 0 <= p < q < |SeedUpTo(userIds, n, dateOf)| ==>
      SeedUpTo(userIds, n, dateOf)[p].id != SeedUpTo(userIds, n, dateOf)[q].id
  {
    var seed := SeedUpTo(userIds, n, dateOf);
    SeedLength(userIds, n, dateOf);
    forall p, q | 0 <= p < q < |seed|
      ensures seed[p].id != seed[q].id
    {
      SeedIdAt(userIds, n, dateOf, p);
      SeedIdAt(userIds, n, dateOf, q);
      assert p % 3 != q % 3 || p / 3 != q / 3;
      SeedIdsDiffer(p % 3, p / 3, q % 3, q / 3);
    }
  }
}
