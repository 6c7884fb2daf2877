/**
 * The in-memory scheduling store (src/context/ShiftContext.tsx): three
 * collections (shifts, templates, assignments), each replaced whole by the
 * store's operations, and the round-robin generator that expands a template
 * over consecutive days.
 */
module ShiftContext {
  import opened Types
  import opened ArrayOps
  import MockData

  /** The fixed roster the generator rotates over. */
  const StaffIds: seq<string> := ["2", "3", "4"]

  function ShiftId(s: Shift): string
  {
    s.id
  }

  function TemplateId(t: ShiftTemplate): string
  {
    t.id
  }

  /**
   * `records.map(r => r.id === record.id ? record : r)`: every record carrying
   * the id of `record` is replaced by it, all others stay where they are.
   */
  function ReplaceById<T>(records: seq<T>, idOf: T -> string, record: T): (r: seq<T>)
    ensures |r| == |records|
    ensures forall k :: 0 <= k < |r| ==> idOf(r[k]) == idOf(records[k])
    ensures forall k :: 0 <= k < |r| && idOf(records[k]) == idOf(record) ==> r[k] == record
    ensures forall k :: 0 <= k < |r| && idOf(records[k]) != idOf(record) ==> r[k] == records[k]
  {
    Map((x: T) => if idOf(x) == idOf(record) then record else x, records)
  }

  /**
   * `records.filter(r => r.id !== id)`: no record with that id is left, every
   * other record is kept with its multiplicity, in its original order.
   */
  function RemoveById<T(==,!new)>(records: seq<T>, idOf: T -> string, id: string): (r: seq<T>)
    ensures forall x :: x in r <==> x in records && idOf(x) != id
    ensures forall x :: idOf(x) != id ==> multiset(r)[x] == multiset(records)[x]
    ensures IsSubsequence(r, records)
  {
    var keep := (x: T) => idOf(x) != id;
    FilterMultiset(keep, records);
    FilterSubsequence(keep, records);
    Filter(keep, records)
  }

  /** Replacing by an id no record carries changes nothing. */
  lemma {:induction false} ReplaceAbsent<T>(records: seq<T>, idOf: T -> string, record: T)
    requires forall k :: 0 <= k < |records| ==> idOf(records[k]) != idOf(record)
    ensures ReplaceById(records, idOf, record) == records
  {
    var r := ReplaceById(records, idOf, record);
    assert forall k :: 0 <= k < |r| ==> r[k] == records[k];
  }

  /** Replacing is idempotent: a second identical update changes nothing. */
  lemma ReplaceTwice<T>(records: seq<T>, idOf: T -> string, record: T)
    ensures ReplaceById(ReplaceById(records, idOf, record), idOf, record) == ReplaceById(records, idOf, record)
  {
    var once := ReplaceById(records, idOf, record);
    var twice := ReplaceById(once, idOf, record);
    assert forall k :: 0 <= k < |twice| ==> twice[k] == once[k];
  }

  /** Removing an id no record carries changes nothing. */
  lemma RemoveAbsent<T(!new)>(records: seq<T>, idOf: T -> string, id: string)
    requires forall x :: x in records ==> idOf(x) != id
    ensures RemoveById(records, idOf, id) == records
  {
    FilterKeepsAll((x: T) => idOf(x) != id, records);
  }

  /** The first shift with that id, or none when no shift has it. */
  function FindShift(shifts: seq<Shift>, id: string): (r: Option<Shift>)
    ensures r.None? <==> forall k :: 0 <= k < |shifts| ==> shifts[k].id != id
    ensures r.Some? ==> (r.value.id == id &&
      exists k :: 0 <= k < |shifts| && shifts[k] == r.value && forall m :: 0 <= m < k ==> shifts[m].id != id)
  {
    Find((s: Shift) => s.id == id, shifts)
  }

  /** The first template with that id, or none when no template has it. */
  function FindTemplate(templates: seq<ShiftTemplate>, id: string): (r: Option<ShiftTemplate>)
    ensures r.None? <==> forall k :: 0 <= k < |templates| ==> templates[k].id != id
    ensures r.Some? ==> (r.value.id == id &&
      exists k :: 0 <= k < |templates| && templates[k] == r.value && forall m :: 0 <= m < k ==> templates[m].id != id)
  {
    Find((t: ShiftTemplate) => t.id == id, templates)
  }

  /** The number of slots per shift: the slot loop `j < staffRequired` runs no times when it is not positive. */
  function StaffCount(t: ShiftTemplate): (r: nat)
    ensures r == 0 <==> t.staffRequired <= 0
    ensures t.staffRequired > 0 ==> r == t.staffRequired
  {
    if t.staffRequired > 0 then t.staffRequired else 0
  }

  /** The roster position for day i, shift index s and slot j; always a valid index. */
  function StaffIndex(i: nat, s: nat, j: nat): (r: nat)
    ensures r < |StaffIds|
    ensures r == (i + s + j) % 3
  {
    (i + s + j) % |StaffIds|
  }

  /** The assignment the generator pushes for slot j of shift index s on day i, dated `date`. */
  function Slot(shift: Shift, date: string, i: nat, s: nat, j: nat): ShiftAssignment
  {
    var staffId := StaffIds[StaffIndex(i, s, j)];
    ShiftAssignment(date + "-" + shift.id + "-" + staffId, staffId, shift.id, date, Scheduled)
  }

  /** The first m slots of one shift on one day. */
  function SlotsUpTo(shift: Shift, date: string, i: nat, s: nat, m: nat): seq<ShiftAssignment>
  {
    if m == 0 then [] else SlotsUpTo(shift, date, i, s, m - 1) + [Slot(shift, date, i, s, m - 1)]
  }

  /** The slots of the first m shifts of the template on day i. */
  function ShiftsUpTo(t: ShiftTemplate, date: string, i: nat, m: nat): seq<ShiftAssignment>
    requires m <= |t.shifts|
  {
    if m == 0 then []
    else ShiftsUpTo(t, date, i, m - 1) + SlotsUpTo(t.shifts[m - 1], date, i, m - 1, StaffCount(t))
  }

  /** The assignments of the first n days; `addDays(start, i)` is the date string the app computes for day i from `start`. */
  function DaysUpTo(t: ShiftTemplate, start: string, addDays: (string, int) -> string, n: nat): seq<ShiftAssignment>
  {
    if n == 0 then []
    else DaysUpTo(t, start, addDays, n - 1) + ShiftsUpTo(t, addDays(start, n - 1), n - 1, |t.shifts|)
  }

  /** The number of iterations of the day loop `i < days`: none when `days` is not positive. */
  function DayCount(days: int): (r: nat)
    ensures r == 0 <==> days <= 0
    ensures days > 0 ==> r == days
  {
    if days > 0 then days else 0
  }

  /** Everything one generation over `days` days appends. */
  function Rotation(t: ShiftTemplate, start: string, days: int, addDays: (string, int) -> string): seq<ShiftAssignment>
  {
    DaysUpTo(t, start, addDays, DayCount(days))
  }

  lemma {:induction false} SlotsLength(shift: Shift, date: string, i: nat, s: nat, m: nat)
    ensures |SlotsUpTo(shift, date, i, s, m)| == m
  {
    if m > 0 {
      SlotsLength(shift, date, i, s, m - 1);
    }
  }

  lemma {:induction false} ShiftsLength(t: ShiftTemplate, date: string, i: nat, m: nat)
    requires m <= |t.shifts|
    ensures |ShiftsUpTo(t, date, i, m)| == m * StaffCount(t)
  {
    if m > 0 {
      ShiftsLength(t, date, i, m - 1);
      SlotsLength(t.shifts[m - 1], date, i, m - 1, StaffCount(t));
      assert (m - 1) * StaffCount(t) + StaffCount(t) == m * StaffCount(t);
    }
  }

  lemma {:induction false} DaysLength(t: ShiftTemplate, start: string, addDays: (string, int) -> string, n: nat)
    ensures |DaysUpTo(t, start, addDays, n)| == n * (|t.shifts| * StaffCount(t))
  {
    if n > 0 {
      DaysLength(t, start, addDays, n - 1);
      ShiftsLength(t, addDays(start, n - 1), n - 1, |t.shifts|);
      assert (n - 1) * (|t.shifts| * StaffCount(t)) + |t.shifts| * StaffCount(t) == n * (|t.shifts| * StaffCount(t));
    }
  }

  /** One generation appends days * |template.shifts| * staffRequired assignments (none when either count is not positive). */
  lemma RotationLength(t: ShiftTemplate, start: string, days: int, addDays: (string, int) -> string)
    ensures days <= 0 || t.staffRequired <= 0 ==> Rotation(t, start, days, addDays) == []
    ensures days > 0 && t.staffRequired > 0 ==>
      |Rotation(t, start, days, addDays)| == days * (|t.shifts| * t.staffRequired)
  {
    var n := DayCount(days);
    DaysLength(t, start, addDays, n);
    if t.staffRequired <= 0 {
      assert |t.shifts| * StaffCount(t) == 0;
      assert n * (|t.shifts| * StaffCount(t)) == 0;
    } else if days <= 0 {
      assert n * (|t.shifts| * StaffCount(t)) == 0;
    }
  }

  lemma {:induction false} SlotsAt(shift: Shift, date: string, i: nat, s: nat, m: nat, j: nat)
    requires j < m
    ensures |SlotsUpTo(shift, date, i, s, m)| == m
    ensures SlotsUpTo(shift, date, i, s, m)[j] == Slot(shift, date, i, s, j)
  {
    SlotsLength(shift, date, i, s, m - 1);
    if j < m - 1 {
      SlotsAt(shift, date, i, s, m - 1, j);
    }
  }

  /** Position s * K + j (K slots per shift) of a day's assignments is slot j of shift s. */
  lemma {:induction false} ShiftsAt(t: ShiftTemplate, date: string, i: nat, m: nat, s: nat, j: nat)
    requires m <= |t.shifts| && s < m && j < StaffCount(t)
    ensures |ShiftsUpTo(t, date, i, m)| == m * StaffCount(t)
    ensures s * StaffCount(t) + j < m * StaffCount(t)
    ensures ShiftsUpTo(t, date, i, m)[s * StaffCount(t) + j] == Slot(t.shifts[s], date, i, s, j)
  {
    var k := StaffCount(t);
    ShiftsLength(t, date, i, m);
    ShiftsLength(t, date, i, m - 1);
    assert (m - 1) * k + k == m * k;
    if s < m - 1 {
      ShiftsAt(t, date, i, m - 1, s, j);
    } else {
      SlotsAt(t.shifts[s], date, i, s, k, j);
    }
  }

  /** Position i * D + p (D assignments per day) of the generated block is position p of day i. */
  lemma {:induction false} DaysAt(t: ShiftTemplate, start: string, addDays: (string, int) -> string, n: nat, i: nat, p: nat)
    requires i < n && p < |t.shifts| * StaffCount(t)
    ensures |DaysUpTo(t, start, addDays, n)| == n * (|t.shifts| * StaffCount(t))
    ensures |ShiftsUpTo(t, addDays(start, i), i, |t.shifts|)| == |t.shifts| * StaffCount(t)
    ensures 0 <= i * (|t.shifts| * StaffCount(t)) + p < n * (|t.shifts| * StaffCount(t))
    ensures DaysUpTo(t, start, addDays, n)[i * (|t.shifts| * StaffCount(t)) + p] ==
      ShiftsUpTo(t, addDays(start, i), i, |t.shifts|)[p]
  {
    var d := |t.shifts| * StaffCount(t);
    var q := i * d + p;
    DaysLength(t, start, addDays, n);
    DaysLength(t, start, addDays, n - 1);
    ShiftsLength(t, addDays(start, n - 1), n - 1, |t.shifts|);
    ShiftsLength(t, addDays(start, i), i, |t.shifts|);
    ProductNonNegative(i, d);
    var prev := DaysUpTo(t, start, addDays, n - 1);
    var last := ShiftsUpTo(t, addDays(start, n - 1), n - 1, |t.shifts|);
    assert DaysUpTo(t, start, addDays, n) == prev + last;
    assert |prev| + d == n * d by {
      assert (n - 1) * d + d == n * d;
    }
    if i < n - 1 {
      DaysAt(t, start, addDays, n - 1, i, p);
      assert (prev + last)[q] == prev[q];
    } else {
      assert q == |prev| + p;
      assert (prev + last)[q] == last[p];
    }
  }

  /**
   * The rotation: on day i, slot j of shift index s goes to
   * `StaffIds[(i + s + j) % 3]`, with the date of day i, the shift's id, status
   * scheduled and the id `date-shiftId-staffId`.
   */
  lemma RotationAt(t: ShiftTemplate, start: string, days: int, addDays: (string, int) -> string, i: nat, s: nat, j: nat)
    requires i < days && s < |t.shifts| && j < t.staffRequired
    ensures var r := Rotation(t, start, days, addDays);
      var p := i * (|t.shifts| * t.staffRequired) + s * t.staffRequired + j;
      0 <= p < |r| &&
      r[p].userId == StaffIds[(i + s + j) % 3] &&
      r[p].shiftId == t.shifts[s].id &&
      r[p].date == addDays(start, i) &&
      r[p].status == Scheduled &&
      r[p].id == addDays(start, i) + "-" + t.shifts[s].id + "-" + StaffIds[(i + s + j) % 3]
  {
    var k := t.staffRequired;
    var p := i * (|t.shifts| * k) + s * k + j;
    RotationSlot(t, start, days, addDays, i, s, j, k);
    var a := Slot(t.shifts[s], addDays(start, i), i, s, j);
    assert a.userId == StaffIds[(i + s + j) % 3];
  }

  /** Position i * (|shifts| * k) + s * k + j of the rotation, k slots per shift, is slot j of shift s on day i. */
  lemma RotationSlot(t: ShiftTemplate, start: string, days: int, addDays: (string, int) -> string, i: nat, s: nat, j: nat, k: nat)
    requires i < days && s < |t.shifts| && j < k && k == t.staffRequired
    ensures var p := i * (|t.shifts| * k) + s * k + j;
      0 <= p < |Rotation(t, start, days, addDays)| &&
      Rotation(t, start, days, addDays)[p] == Slot(t.shifts[s], addDays(start, i), i, s, j)
  {
    assert StaffCount(t) == k;
    var n, d := DayCount(days), |t.shifts| * StaffCount(t);
    assert |t.shifts| * k == d;
    assert i * (|t.shifts| * k) == i * d;
    ShiftsAt(t, addDays(start, i), i, |t.shifts|, s, j);
    DaysAt(t, start, addDays, n, i, s * k + j);
    assert Rotation(t, start, days, addDays) == DaysUpTo(t, start, addDays, n);
  }

  lemma {:induction false} ProductNonNegative(a: nat, b: nat)
    ensures 0 <= a * b
  {
    if a > 0 {
      ProductNonNegative(a - 1, b);
      assert a * b == (a - 1) * b + b;
    }
  }

  /** Every generated assignment is scheduled, goes to a roster member, and carries a template shift and a generated date. */
  predicate FromTemplate(t: ShiftTemplate, start: string, addDays: (string, int) -> string, n: nat, a: ShiftAssignment)
  {
    && a.status == Scheduled
    && a.userId in StaffIds
    && (exists s :: 0 <= s < |t.shifts| && a.shiftId == t.shifts[s].id)
    && (exists i :: 0 <= i < n && a.date == addDays(start, i))
    && a.id == a.date + "-" + a.shiftId + "-" + a.userId
  }

  lemma {:induction false} SlotsMembers(t: ShiftTemplate, start: string, addDays: (string, int) -> string, n: nat, i: nat, s: nat, m: nat)
    requires i < n && s < |t.shifts|
    ensures forall a :: a in SlotsUpTo(t.shifts[s], addDays(start, i), i, s, m) ==> FromTemplate(t, start, addDays, n, a)
  {
    if m > 0 {
      SlotsMembers(t, start, addDays, n, i, s, m - 1);
    }
  }

  lemma {:induction false} ShiftsMembers(t: ShiftTemplate, start: string, addDays: (string, int) -> string, n: nat, i: nat, m: nat)
    requires i < n && m <= |t.shifts|
    ensures forall a :: a in ShiftsUpTo(t, addDays(start, i), i, m) ==> FromTemplate(t, start, addDays, n, a)
  {
    if m > 0 {
      ShiftsMembers(t, start, addDays, n, i, m - 1);
      SlotsMembers(t, start, addDays, n, i, m - 1, StaffCount(t));
    }
  }

  lemma {:induction false} DaysMembers(t: ShiftTemplate, start: string, addDays: (string, int) -> string, n: nat, m: nat)
    requires m <= n
    ensures forall a :: a in DaysUpTo(t, start, addDays, m) ==> FromTemplate(t, start, addDays, n, a)
  {
    if m > 0 {
      DaysMembers(t, start, addDays, n, m - 1);
      ShiftsMembers(t, start, addDays, n, m - 1, |t.shifts|);
    }
  }

  /** Every generated assignment is scheduled, staffed from the roster, on a template shift and a generated date. */
  lemma RotationMembers(t: ShiftTemplate, start: string, days: int, addDays: (string, int) -> string)
    ensures forall a :: a in Rotation(t, start, days, addDays) ==>
      FromTemplate(t, start, addDays, DayCount(days), a)
  {
    var n := DayCount(days);
    DaysMembers(t, start, addDays, n, n);
  }

  /**
   * With more than three people required per shift the rotation wraps round
   * the three-person roster: slot 0 and slot 3 of the first shift on the first
   * day are the same assignment, id included.
   */
  lemma OverstaffedRepeats(t: ShiftTemplate, start: string, days: int, addDays: (string, int) -> string)
    requires days > 0 && |t.shifts| > 0 && t.staffRequired > 3
    ensures var r := Rotation(t, start, days, addDays);
      3 < |r| && r[0] == r[3]
  {
    RotationAt(t, start, days, addDays, 0, 0, 0);
    RotationAt(t, start, days, addDays, 0, 0, 3);
  }

  /** With at most three people per shift, the slots of one shift go to different people. */
  lemma SlotsDistinctStaff(shift: Shift, date: string, i: nat, s: nat, j: nat, j': nat)
    requires j < j' < j + 3
    ensures Slot(shift, date, i, s, j).userId != Slot(shift, date, i, s, j').userId
  {
    var x := i + s + j;
    assert i + s + j' == x + (j' - j);
    ModThreeDiffer(x, j' - j);
    assert StaffIndex(i, s, j) != StaffIndex(i, s, j');
  }

  /** Adding one or two moves a number to a different residue modulo 3. */
  lemma ModThreeDiffer(x: nat, d: nat)
    requires 0 < d < 3
    ensures (x + d) % 3 != x % 3
  {
    var q, r := x / 3, x % 3;
    assert x == 3 * q + r;
    if r + d < 3 {
      assert x + d == 3 * q + (r + d);
    } else {
      assert x + d == 3 * (q + 1) + (r + d - 3);
    }
  }

  /**
   * The store. `shifts`, `shiftTemplates` and `shiftAssignments` are the three
   * state variables of the provider; every operation replaces one of them whole.
   */
  class ShiftStore {
    var shifts: seq<Shift>
    var shiftTemplates: seq<ShiftTemplate>
    var shiftAssignments: seq<ShiftAssignment>

    /**
     * The provider starts from the seed shifts, the seed template and the
     * assignments the seed loop builds over the staff of the seed users
     * (`StaffUserIds(MockUsers)`, which is `StaffIds` by `MockStaffUserIds`);
     * `dateOf(i)` is the date string the app computes for day i.
     */
    constructor(dateOf: int -> string)
      ensures shifts == MockData.MockShifts
      ensures shiftTemplates == MockData.MockShiftTemplates
      ensures shiftAssignments == MockData.SeedUpTo(StaffIds, MockData.SeedDays, dateOf)
    {
      var seed := MockData.PopulateMockShiftAssignments(StaffIds, dateOf);
      shifts := MockData.MockShifts;
      shiftTemplates := MockData.MockShiftTemplates;
      shiftAssignments := seed;
    }

    /** `addShift`: the new shift, with the freshly drawn id, goes last. */
    method AddShift(shift: ShiftData, newId: string)
      modifies this
      ensures shifts == old(shifts) + [shift.WithId(newId)]
      ensures shiftTemplates == old(shiftTemplates) && shiftAssignments == old(shiftAssignments)
    {
      shifts := shifts + [shift.WithId(newId)];
    }

    /** `updateShift`: every shift with the argument's id becomes the argument. */
    method UpdateShift(shift: Shift)
      modifies this
      ensures shifts == ReplaceById(old(shifts), ShiftId, shift)
      ensures shiftTemplates == old(shiftTemplates) && shiftAssignments == old(shiftAssignments)
    {
      shifts := ReplaceById(shifts, ShiftId, shift);
    }

    /** `deleteShift`: the shifts with that id go; assignments that referred to them stay. */
    method DeleteShift(id: string)
      modifies this
      ensures shifts == RemoveById(old(shifts), ShiftId, id)
      ensures GetShiftById(id).None?
      ensures shiftTemplates == old(shiftTemplates) && shiftAssignments == old(shiftAssignments)
    {
      shifts := RemoveById(shifts, ShiftId, id);
      forall k | 0 <= k < |shifts|
        ensures shifts[k].id != id
      {
        assert shifts[k] in shifts;
      }
    }

    /** `addShiftTemplate`: the new template, with the freshly drawn id, goes last. */
    method AddShiftTemplate(template: TemplateData, newId: string)
      modifies this
      ensures shiftTemplates == old(shiftTemplates) + [template.WithId(newId)]
      ensures shifts == old(shifts) && shiftAssignments == old(shiftAssignments)
    {
      shiftTemplates := shiftTemplates + [template.WithId(newId)];
    }

    /** `updateShiftTemplate`: every template with the argument's id becomes the argument. */
    method UpdateShiftTemplate(template: ShiftTemplate)
      modifies this
      ensures shiftTemplates == ReplaceById(old(shiftTemplates), TemplateId, template)
      ensures shifts == old(shifts) && shiftAssignments == old(shiftAssignments)
    {
      shiftTemplates := ReplaceById(shiftTemplates, TemplateId, template);
    }

    /** `deleteShiftTemplate`: the templates with that id go. */
    method DeleteShiftTemplate(id: string)
      modifies this
      ensures shiftTemplates == RemoveById(old(shiftTemplates), TemplateId, id)
      ensures FindTemplate(shiftTemplates, id).None?
      ensures shifts == old(shifts) && shiftAssignments == old(shiftAssignments)
    {
      shiftTemplates := RemoveById(shiftTemplates, TemplateId, id);
      forall k | 0 <= k < |shiftTemplates|
        ensures shiftTemplates[k].id != id
      {
        assert shiftTemplates[k] in shiftTemplates;
      }
    }

    /** `getShiftById`: the first shift with that id, or none when no shift has it. */
    function GetShiftById(id: string): (r: Option<Shift>)
      reads this
      ensures r.None? <==> forall k :: 0 <= k < |shifts| ==> shifts[k].id != id
      ensures r.Some? ==> (r.value.id == id &&
        exists k :: 0 <= k < |shifts| && shifts[k] == r.value && forall m :: 0 <= m < k ==> shifts[m].id != id)
    {
      FindShift(shifts, id)
    }

    /**
     * `generateShiftAssignments`: for an unknown template nothing changes;
     * otherwise the rotation over `days` days from `startDate` is appended to
     * the assignments, the old ones kept as a prefix, with no de-duplication.
     * `addDays(startDate, i)` is the date string the app computes for day i from `startDate`.
     */
    method GenerateShiftAssignments(templateId: string, startDate: string, days: int, addDays: (string, int) -> string)
      modifies this
      ensures FindTemplate(old(shiftTemplates), templateId).None? ==> shiftAssignments == old(shiftAssignments)
      ensures FindTemplate(old(shiftTemplates), templateId).Some? ==>
        shiftAssignments == old(shiftAssignments) +
          Rotation(FindTemplate(old(shiftTemplates), templateId).value, startDate, days, addDays)
      ensures shifts == old(shifts) && shiftTemplates == old(shiftTemplates)
    {
      var found := FindTemplate(shiftTemplates, templateId);
      if found.None? {
        return;
      }
      var newAssignments := ExpandTemplate(found.value, startDate, days, addDays);
      shiftAssignments := shiftAssignments + newAssignments;
    }
  }

  /**
   * The loops of `generateShiftAssignments` that build `newAssignments`: for
   * each day, each shift of the template in order (the `forEach` callback is
   * `PushShiftSlots`), and each of the `staffRequired` slots, one assignment to
   * `StaffIds[(i + shiftIndex + j) % 3]`.
   */
  method ExpandTemplate(template: ShiftTemplate, startDate: string, days: int, addDays: (string, int) -> string)
    returns (newAssignments: seq<ShiftAssignment>)
    ensures newAssignments == Rotation(template, startDate, days, addDays)
  {
    newAssignments := [];
    var i := 0;
    while i < days
      invariant 0 <= i <= DayCount(days)
      invariant newAssignments == DaysUpTo(template, startDate, addDays, i)
    {
      var dateString := addDays(startDate, i);
      var shiftIndex := 0;
      while shiftIndex < |template.shifts|
        invariant 0 <= shiftIndex <= |template.shifts|
        invariant newAssignments == DaysUpTo(template, startDate, addDays, i) + ShiftsUpTo(template, dateString, i, shiftIndex)
      {
        ShiftDone(DaysUpTo(template, startDate, addDays, i), template, dateString, i, shiftIndex);
        newAssignments := PushShiftSlots(newAssignments, template, shiftIndex, dateString, i);
        shiftIndex := shiftIndex + 1;
      }
      assert DaysUpTo(template, startDate, addDays, i + 1) ==
        DaysUpTo(template, startDate, addDays, i) + ShiftsUpTo(template, dateString, i, |template.shifts|);
      i := i + 1;
    }
  }

  /**
   * The `forEach` callback for shift `shiftIndex` on day i: the slot loop
   * pushes `staffRequired` assignments (none when that is not positive), slot j
   * going to `StaffIds[(i + shiftIndex + j) % 3]`.
   */
  method PushShiftSlots(newAssignments: seq<ShiftAssignment>, template: ShiftTemplate, shiftIndex: nat, dateString: string, i: nat)
    returns (r: seq<ShiftAssignment>)
    requires shiftIndex < |template.shifts|
    ensures r == newAssignments + SlotsUpTo(template.shifts[shiftIndex], dateString, i, shiftIndex, StaffCount(template))
  {
    var staffIds := StaffIds;
    var shift := template.shifts[shiftIndex];
    r := newAssignments;
    var j := 0;
    while j < template.staffRequired
      invariant 0 <= j <= StaffCount(template)
      invariant r == newAssignments + SlotsUpTo(shift, dateString, i, shiftIndex, j)
    {
      var staffIndex := (i + shiftIndex + j) % |staffIds|;
      assert staffIndex == StaffIndex(i, shiftIndex, j);
      var assignment := ShiftAssignment(dateString + "-" + shift.id + "-" + staffIds[staffIndex], staffIds[staffIndex], shift.id, dateString, Scheduled);
      assert assignment == Slot(shift, dateString, i, shiftIndex, j);
      PushSlot(newAssignments, shift, dateString, i, shiftIndex, j);
      r := r + [assignment];
      j := j + 1;
    }
  }

  /** One push of the slot loop extends the slots built so far by the next slot. */
  lemma PushSlot(before: seq<ShiftAssignment>, shift: Shift, date: string, i: nat, s: nat, j: nat)
    ensures before + SlotsUpTo(shift, date, i, s, j) + [Slot(shift, date, i, s, j)] == before + SlotsUpTo(shift, date, i, s, j + 1)
  {
    assert SlotsUpTo(shift, date, i, s, j + 1) == SlotsUpTo(shift, date, i, s, j) + [Slot(shift, date, i, s, j)];
  }

  /** A finished slot loop completes the next shift of the day. */
  lemma ShiftDone(prefix: seq<ShiftAssignment>, t: ShiftTemplate, date: string, i: nat, s: nat)
    requires s < |t.shifts|
    ensures prefix + ShiftsUpTo(t, date, i, s) + SlotsUpTo(t.shifts[s], date, i, s, StaffCount(t)) == prefix + ShiftsUpTo(t, date, i, s + 1)
  {
    assert ShiftsUpTo(t, date, i, s + 1) == ShiftsUpTo(t, date, i, s) + SlotsUpTo(t.shifts[s], date, i, s, StaffCount(t));
  }

  /** Generating twice from the same template appends the same block twice: there is no de-duplication. */
  method GenerateTwice(store: ShiftStore, templateId: string, startDate: string, days: int, addDays: (string, int) -> string)
    requires FindTemplate(store.shiftTemplates, templateId).Some?
    modifies store
    ensures var r := Rotation(FindTemplate(old(store.shiftTemplates), templateId).value, startDate, days, addDays);
      store.shiftAssignments == old(store.shiftAssignments) + r + r
  {
    store.GenerateShiftAssignments(templateId, startDate, days, addDays);
    store.GenerateShiftAssignments(templateId, startDate, days, addDays);
  }

  /** Deleting a shift leaves the assignments that refer to it in place, now pointing at no shift. */
  method DanglingAfterDelete(store: ShiftStore, a: ShiftAssignment)
    requires a in store.shiftAssignments
    modifies store
    ensures a in store.shiftAssignments && store.GetShiftById(a.shiftId).None?
  {
    store.DeleteShift(a.shiftId);
  }
}
