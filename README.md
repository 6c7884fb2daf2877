# Shift scheduling core, modelled in Dafny

This project models the scheduling core of a small shift-planning web app for
a security operations team:

- **The in-memory store** (`ShiftContext`). It holds three collections: shifts,
  shift templates and shift assignments. It offers:
  - adding, replacing by id and deleting by id, for shifts and for templates;
  - looking a shift up by id;
  - the round-robin generator, which expands a template over consecutive days
    using a fixed three-person roster.

  The store is a class with three `seq` fields. Each operation is a method that
  replaces one field whole, as the app's state setters do. The generator's
  loops live in `ExpandTemplate` (days and shifts) and `PushShiftSlots` (the
  slot loop of the per-shift `forEach` callback). Both are proved against the
  specification function `Rotation`.
- **The seed data** (`MockData`): the seed users, the shifts and the template,
  the staff-id list derived from the users, and the loop that fills 14 days
  of assignments.
- **The selection helpers of the views:**
  - the week calendar (`ShiftCalendar`): the week range, its consecutive
    dates, week navigation, the per-cell filter and the role-based visibility
    filter;
  - the staff dashboard (`StaffDashboard`): own shifts, upcoming shifts sorted
    by date, the next shift and the first-five cap;
  - the template form (`ShiftTemplateForm`): the checkbox toggle, the
    selection-to-template mapping on submit, the staff-count options and the
    submit-enable rule.

Shared pieces:

- `Types` holds the records.
- `ArrayOps` holds the JavaScript array operations (`filter`, `map`, `find`)
  as functions on sequences, with their properties.
- `Strings` holds:
  - the character order of strings, used for `>=` and `localeCompare` on
    `YYYY-MM-DD` dates;
  - decimal `toString`/`parseInt` on non-negative integers.

Representation choices:

- **Dates:** assignment dates are `YYYY-MM-DD` strings. The calendar works on
  day numbers. Day 0 is Thursday 1970-01-01, so the weekday of day `d` is
  `(d + 4) % 7`, with 0 for Sunday as `getDay` counts.
- **Inputs from outside the model:**
  - the generator takes `addDays(start, i)`, the date string the app computes
    for `i` days after `start` (see "## Left out" on time zones);
  - the seed loop takes `dateOf(i)`, the date string the app computes for
    `i` days after today;
  - the dashboard takes `todayStr`;
  - the ids drawn with `Math.random` are `newId` parameters.

## Model

| member | source | states |
|---|---|---|
| `MockData.SeedTemplate` | src/data/mockData.ts:62-69 | The seed template set is one template whose shifts are the three seed shifts (ids "1", "2", "3"), with two people required. |
| `MockData.StaffUserIdsMembers` | src/data/mockData.ts:81 | The derived `userIds` are no more than the users. Each is the id of a staff-role user, and every staff-role user's id is among them. |
| `MockData.StaffAfterFirst` | src/data/mockData.ts:81 | When only the first user of a roster is not staff, the staff filter keeps everyone after the first, in order. |
| `MockData.StaffIdsOfFour` | src/data/mockData.ts:81 | For a four-user roster whose first user alone is not staff, `userIds` is the ids of users 2 to 4 in order. |
| `MockData.MockStaffUserIds` | src/data/mockData.ts:81 | For the seed users, `userIds` is exactly `["2", "3", "4"]`, in declaration order. |
| `MockData.PopulateMockShiftAssignments` | src/data/mockData.ts:83-114 | The loop's result equals `SeedUpTo(userIds, 14, dateOf)`: day by day, the morning, afternoon and night assignments in that order. |
| `MockData.SeedLength` | src/data/mockData.ts:83-114 | `n` iterations produce exactly `3 * n` assignments. |
| `MockData.SeedAt` | src/data/mockData.ts:89-113 | Position `3i + k` of the seed set is shift `k` of day `i`. |
| `MockData.SeedAllScheduled` | src/data/mockData.ts:89-113 | Every seed assignment has status scheduled. |
| `MockData.SeedEntry` | src/data/mockData.ts:89-113 | Position `3i + k` of the seed set exists. It is scheduled, has shift id "1"/"2"/"3" for `k` = 0/1/2, date `dateOf(i)` and user `userIds[(i + k) % #userIds]`. |
| `MockData.SeedDayFields` | src/data/mockData.ts:91-109 | Shift `k` of one day's three assignments is scheduled, has shift id "1"/"2"/"3", the day's date and user `userIds[(i + k) % #userIds]`. |
| `MockData.MockSeedSize` | src/data/mockData.ts:83-114 | With the seed roster: 42 assignments, all scheduled, with pairwise distinct ids. |
| `MockData.SeedDayDistinctStaff` | src/data/mockData.ts:91-109 | With three staff, the three shifts of a day go to three different people. |
| `MockData.SeedIdAt` | src/data/mockData.ts:90-107 | The id at position `p` is the prefix "m-"/"a-"/"n-" of shift `p % 3`, followed by the decimal day `p / 3`. |
| `MockData.SeedIdsDiffer` | src/data/mockData.ts:90-107 | Ids built from different (shift, day) pairs are different strings. |
| `MockData.SeedIdsDistinct` | src/data/mockData.ts:90-107 | No two seed assignments share an id. |
| `Strings.NatToString` | src/components/shifts/ShiftTemplateForm.tsx:65-68 | `toString` of a non-negative integer is a non-empty digit string; it is one digit exactly below 10. |
| `Strings.ParseNatToString` | src/components/shifts/ShiftTemplateForm.tsx:39 | `parseInt(n.toString(), 10)` gives `n` back. |
| `Strings.NatToStringInjective` | src/data/mockData.ts:90 | Different numbers print as different numerals. |
| `Strings.LexLeReflexive` | src/components/dashboard/StaffDashboard.tsx:25 | The date order is reflexive. |
| `Strings.LexLeTotal` | src/components/dashboard/StaffDashboard.tsx:25 | Any two date strings are comparable. |
| `Strings.LexLeTransitive` | src/components/dashboard/StaffDashboard.tsx:25 | The date order is transitive. |
| `ShiftContext.ReplaceById` | src/context/ShiftContext.tsx:34-36 | Replacing by id keeps the length and every position's id. A position whose id matches becomes the argument; every other position is unchanged. |
| `ShiftContext.ReplaceAbsent` | src/context/ShiftContext.tsx:34-36 | An update whose id no record carries leaves the collection unchanged. |
| `ShiftContext.ReplaceTwice` | src/context/ShiftContext.tsx:50-52 | Applying the same update twice equals applying it once. |
| `ShiftContext.RemoveById` | src/context/ShiftContext.tsx:38-40 | Deleting by id leaves no record with that id. Every other record is kept with its multiplicity, in its original order. |
| `ShiftContext.RemoveAbsent` | src/context/ShiftContext.tsx:54-56 | Deleting an id no record carries leaves the collection unchanged. |
| `ShiftContext.FindShift` | src/context/ShiftContext.tsx:58-60 | Returns none exactly when no shift has the id; otherwise the first shift with that id. |
| `ShiftContext.FindTemplate` | src/context/ShiftContext.tsx:64 | Returns none exactly when no template has the id; otherwise the first template with that id. |
| `ShiftContext.StaffIndex` | src/context/ShiftContext.tsx:81 | `staffIndex` is `(i + shiftIndex + j) % 3` and always a valid roster index. |
| `ShiftContext.SlotsLength` | src/context/ShiftContext.tsx:80-90 | `m` slot iterations push `m` assignments. |
| `ShiftContext.ShiftsLength` | src/context/ShiftContext.tsx:77-91 | The first `m` shifts of a day push `m * staffCount` assignments. |
| `ShiftContext.DaysLength` | src/context/ShiftContext.tsx:72-92 | `n` days push `n * (#shifts * staffCount)` assignments. |
| `ShiftContext.RotationLength` | src/context/ShiftContext.tsx:72-92 | One generation appends nothing when `days` or `staffRequired` is not positive. Otherwise it appends exactly `days * (#template.shifts * staffRequired)` assignments. |
| `ShiftContext.SlotsAt` | src/context/ShiftContext.tsx:80-90 | Slot `j` of a shift is the `j`-th assignment pushed for it. |
| `ShiftContext.ShiftsAt` | src/context/ShiftContext.tsx:77-91 | Position `s * staffCount + j` of a day's block is slot `j` of shift index `s`. |
| `ShiftContext.DaysAt` | src/context/ShiftContext.tsx:72-92 | Position `i * dayBlock + p` of the generated block is position `p` of day `i`. |
| `ShiftContext.RotationSlot` | src/context/ShiftContext.tsx:80-89 | Position `i * (#shifts * k) + s * k + j` of a generation (`k` slots per shift) exists and is slot `j` of shift `s` on day `i`. |
| `ShiftContext.RotationAt` | src/context/ShiftContext.tsx:80-89 | For day `i`, shift `s` and slot `j`, the generated assignment has user `StaffIds[(i + s + j) % 3]`, the shift's id, day `i`'s date and status scheduled. Its id is `date-shiftId-staffId`. |
| `ShiftContext.SlotsMembers` | src/context/ShiftContext.tsx:80-90 | Every slot assignment satisfies `FromTemplate`. |
| `ShiftContext.ShiftsMembers` | src/context/ShiftContext.tsx:77-91 | Every assignment of a day satisfies `FromTemplate`. |
| `ShiftContext.DaysMembers` | src/context/ShiftContext.tsx:72-92 | Every assignment of the first `m` days satisfies `FromTemplate`. |
| `ShiftContext.RotationMembers` | src/context/ShiftContext.tsx:68-89 | Every generated assignment is scheduled and goes to a roster member. Its shift id is one of the template's shifts and its date is one of the generated days. Its id is `date-shiftId-userId`. |
| `ShiftContext.OverstaffedRepeats` | src/context/ShiftContext.tsx:81-84 | With more than three people per shift, slots 0 and 3 of the first shift on the first day are the same assignment, id included. |
| `ShiftContext.SlotsDistinctStaff` | src/context/ShiftContext.tsx:81 | Slots of one shift less than three apart go to different people. |
| `ShiftContext.ShiftStore.constructor` | src/context/ShiftContext.tsx:22-24 | The store starts from the seed shifts and the seed template. Its assignments are what the seed loop builds over 14 days with the seed users' staff ids ("2", "3", "4"). |
| `ShiftContext.ShiftStore.AddShift` | src/context/ShiftContext.tsx:26-32 | The new shift, carrying the drawn id, is appended after all previous shifts. Templates and assignments are unchanged. |
| `ShiftContext.ShiftStore.UpdateShift` | src/context/ShiftContext.tsx:34-36 | The shifts become `ReplaceById` of the old shifts. The other collections are unchanged. |
| `ShiftContext.ShiftStore.DeleteShift` | src/context/ShiftContext.tsx:38-40 | The shifts become `RemoveById` of the old shifts, and the lookup then finds no shift with that id. Assignments are untouched. |
| `ShiftContext.ShiftStore.AddShiftTemplate` | src/context/ShiftContext.tsx:42-48 | The new template, carrying the drawn id, is appended last. Shifts and assignments are unchanged. |
| `ShiftContext.ShiftStore.UpdateShiftTemplate` | src/context/ShiftContext.tsx:50-52 | The templates become `ReplaceById` of the old templates. The other collections are unchanged. |
| `ShiftContext.ShiftStore.DeleteShiftTemplate` | src/context/ShiftContext.tsx:54-56 | The templates become `RemoveById` of the old templates, and no template with that id remains. The other collections are unchanged. |
| `ShiftContext.ShiftStore.GetShiftById` | src/context/ShiftContext.tsx:58-60 | Returns none exactly when no stored shift has the id; otherwise the first stored shift with that id. |
| `ShiftContext.ShiftStore.GenerateShiftAssignments` | src/context/ShiftContext.tsx:63-97 | For an unknown template id, nothing changes. Otherwise the rotation is appended after the old assignments, which are kept as a prefix. Shifts and templates are unchanged. |
| `ShiftContext.ExpandTemplate` | src/context/ShiftContext.tsx:67-92 | The day loop and the loop over the template's shifts, with `PushShiftSlots` as the per-shift callback, build exactly `Rotation(template, startDate, days, addDays)`. |
| `ShiftContext.PushShiftSlots` | src/context/ShiftContext.tsx:77-91 | The `forEach` callback for shift `s` on day `i` appends exactly that shift's `staffRequired` slots (none when not positive), slot `j` going to `StaffIds[(i + s + j) % 3]`, after what was already built. |
| `ShiftContext.GenerateTwice` | src/context/ShiftContext.tsx:96 | Generating twice appends the same block twice; there is no de-duplication. |
| `ShiftContext.DanglingAfterDelete` | src/context/ShiftContext.tsx:38-40 | After a shift is deleted, an assignment referring to it is still stored and its shift id resolves to nothing. |
| `ShiftCalendar.Weekday` | src/components/shifts/ShiftCalendar.tsx:27 | The weekday is in 0..6 and agrees with day 0 being a Thursday. |
| `ShiftCalendar.WeekStart` | src/components/shifts/ShiftCalendar.tsx:25-28 | The range start is a Sunday, at most six days before the current date. |
| `ShiftCalendar.WeekStartUnique` | src/components/shifts/ShiftCalendar.tsx:25-28 | Any Sunday at most six days before `d` is `d`'s range start. |
| `ShiftCalendar.WeekStartNext` | src/components/shifts/ShiftCalendar.tsx:72-80 | Moving the date a week on moves the range start a week on. |
| `ShiftCalendar.DatesInRange` | src/components/shifts/ShiftCalendar.tsx:47-57 | The loop yields `end - start + 1` dates, or none when start > end. Date `k` is `start + k`. The result holds exactly the days from start to end and is strictly ascending. |
| `ShiftCalendar.CalendarView.constructor` | src/components/shifts/ShiftCalendar.tsx:18 | The view starts on today's date. |
| `ShiftCalendar.CalendarView.DateRange` | src/components/shifts/ShiftCalendar.tsx:25-31 | In week mode the range runs from a Sunday to six days later and contains the current date. |
| `ShiftCalendar.CalendarView.NavigatePrevious` | src/components/shifts/ShiftCalendar.tsx:62-70 | The current date moves seven days back. |
| `ShiftCalendar.CalendarView.NavigateNext` | src/components/shifts/ShiftCalendar.tsx:72-80 | The current date moves seven days on, and so does the range start. |
| `ShiftCalendar.NextThenPrevious` | src/components/shifts/ShiftCalendar.tsx:62-80 | Next then previous restores the current date and the range. |
| `ShiftCalendar.WeekDates` | src/components/shifts/ShiftCalendar.tsx:44-59 | A week view lists seven consecutive days, Sunday first, with the current date among them. |
| `ShiftCalendar.AssignmentsForDateAndShift` | src/components/shifts/ShiftCalendar.tsx:83-88 | A cell shows exactly the assignments whose date and shift id both match, each with its multiplicity, in store order. |
| `ShiftCalendar.CellsDisjoint` | src/components/shifts/ShiftCalendar.tsx:83-88 | Cells for different shifts on the same date share no assignment. |
| `ShiftCalendar.FilterAssignmentsByUser` | src/components/shifts/ShiftCalendar.tsx:125-130 | An admin sees all assignments unchanged. Another user sees exactly their own, in order, each as often as it is stored. With nobody signed in the result is empty. |
| `StaffDashboard.UserShifts` | src/components/dashboard/StaffDashboard.tsx:15-18 | Empty without a user. Otherwise exactly the user's assignments, each with its multiplicity, in store order. |
| `StaffDashboard.Insert` | src/components/dashboard/StaffDashboard.tsx:25 | Inserting into a date-sorted list keeps it sorted and adds exactly that element. |
| `StaffDashboard.SortByDate` | src/components/dashboard/StaffDashboard.tsx:25 | The sort's output is ordered by date and is a permutation of its input. |
| `StaffDashboard.SortedFirstIsEarliest` | src/components/dashboard/StaffDashboard.tsx:28-31 | In a date-sorted list the first date is not later than any other. |
| `StaffDashboard.UpcomingShifts` | src/components/dashboard/StaffDashboard.tsx:20-26 | Holds exactly the user's assignments dated on or after today, each with its store multiplicity, sorted by date. |
| `StaffDashboard.NextShift` | src/components/dashboard/StaffDashboard.tsx:28-31 | None exactly when there is no upcoming assignment. Otherwise an upcoming assignment whose date is not later than any upcoming date. |
| `StaffDashboard.FirstFive` | src/components/dashboard/StaffDashboard.tsx:89 | The cap yields a prefix of `min(5, n)` elements, which stays sorted. |
| `ShiftTemplateForm.ToggleShift` | src/components/shifts/ShiftTemplateForm.tsx:55-63 | A ticked id is removed, every occurrence of it; the other ids keep their order and multiplicity. An unticked id is appended at the end. |
| `ShiftTemplateForm.ToggleTwiceAbsent` | src/components/shifts/ShiftTemplateForm.tsx:55-63 | Toggling an unticked id twice restores the selection. |
| `ShiftTemplateForm.ToggleTwicePresent` | src/components/shifts/ShiftTemplateForm.tsx:55-63 | Toggling a ticked id twice moves it, once, to the end. |
| `ShiftTemplateForm.SelectedShifts` | src/components/shifts/ShiftTemplateForm.tsx:35 | The template's shifts are exactly the collection's shifts whose id is ticked, in collection order. |
| `ShiftTemplateForm.SelectionFollowsCollectionOrder` | src/components/shifts/ShiftTemplateForm.tsx:35 | Ticking c before a still yields a then c. |
| `ShiftTemplateForm.StaffOptions` | src/components/shifts/ShiftTemplateForm.tsx:65-68 | There are five options; each value equals its label and is a decimal numeral. |
| `ShiftTemplateForm.StaffOptionValues` | src/components/shifts/ShiftTemplateForm.tsx:65-68 | The values are exactly "1" to "5", and option `i` parses to `i + 1`. |
| `ShiftTemplateForm.CanSubmit` | src/components/shifts/ShiftTemplateForm.tsx:137 | Submit is enabled exactly when the name is non-empty and at least one shift is ticked. |
| `ShiftTemplateForm.SubmitEnabledWithoutShifts` | src/components/shifts/ShiftTemplateForm.tsx:35-41 | Submit is enabled by ticked ids alone: with a name and ticked ids that match no shift of the collection, submit is enabled and the template's shift list is empty. |
| `ShiftTemplateForm.Submit` | src/components/shifts/ShiftTemplateForm.tsx:32-50 | An update is chosen exactly when the template id is present and non-empty, and the update carries that id. Either way the template has the form's name, the parsed staff count and the selected shifts. |
| `ShiftTemplateForm.SubmitOptionCount` | src/components/shifts/ShiftTemplateForm.tsx:39 | Submitting with option `i` stores the staff count `i + 1`. |
| `ShiftTemplateForm.HandleSubmit` | src/components/shifts/ShiftTemplateForm.tsx:43-50 | Performs the chosen update or addition on the store's templates. Shifts and assignments are unchanged. |

## Left out

- JavaScript `Date` mechanics are not modelled. This covers `setDate` overflow, `toISOString`'s UTC conversion against local `getDay`, and `toLocaleDateString` formatting. Calendar dates are day numbers, and date strings come in through the `addDays`, `dateOf` and `todayStr` parameters.
- `addDays` is not claimed to give consecutive dates. The app adds days with local-time `setDate` and then formats in UTC with `toISOString`. West of UTC, across a spring clock change, two consecutive days can get the same date string (in America/New_York from "2025-03-01", days 8 and 9 both give "2025-03-09"). No lemma here relies on the dates being consecutive or distinct.
- `ShiftCalendar.CalendarView.DateRange`: gives the intended Sunday-to-Saturday week. In the app, `rangeEnd` is a copy of the current date whose day of month is set to the week start's day of month plus 6. When the week begins in the previous month, the range therefore runs into the next month. For example, on Wednesday 2025-10-01 the range is 2025-09-28 to 2025-11-03.
- `ShiftCalendar.WeekDates`: promises seven dates. In the month-straddling weeks described for `DateRange`, the app lists every date of its longer range (37 in the example).
- The month view mode of the calendar (range and navigation by month) is not modelled. Only week mode is.
- Header text, cell CSS classes and the user lookup in the calendar are rendering only.
- The id drawn by `Math.random` is a parameter. Its uniqueness is not claimed, because the app does not guarantee it.
- React context, state setters, effects and stale closures are not modelled. Each store operation is one atomic replacement of a field.
- The form's effect that loads an existing template into the form fields is not modelled. It reads like the inverse of `Submit`, but nothing in the app relies on it.
- The monthly shift count of the staff dashboard, the admin dashboard, staff management over the hosted backend, login, routing, navigation and the notification seed data are not modelled. They are clock and timezone arithmetic, external I/O or rendering.
- `localeCompare` and JavaScript's `<=` on strings are modelled as character order. JavaScript compares UTF-16 code units, which differ from character order only outside the Basic Multilingual Plane. All of these agree on the app's `YYYY-MM-DD` dates, but not on strings in general.
- The user's avatar URL is not kept.
- `ShiftContext.ShiftStore.GenerateShiftAssignments`: `days` and `staffRequired` are integers. A fractional count, which JavaScript would accept, is not modelled.
- `ShiftContext.ShiftStore.GenerateShiftAssignments`: an unparsable `startDate` is not modelled. In the app, `toISOString` on the resulting invalid date throws on the first day (when `days >= 1`), before anything is pushed. The state is then unchanged and the error reaches the caller; the model instead appends `Rotation` over whatever `addDays` returns. The generate form only submits a non-empty date-input value.
- `ShiftTemplateForm.Submit`: it requires `staffRequired` to be a decimal numeral. The select only offers "1" to "5", and editing loads a stored count's `toString`. `parseInt` of anything else (NaN) is not modelled.
- `ShiftTemplateForm.HandleSubmit`: it requires a decimal numeral, as `Submit` does.
- `MockData.PopulateMockShiftAssignments`: it requires a non-empty staff list. With no staff users, the app's `i % 0` is NaN and the pushed user id is undefined; the loop only ever runs on the seed roster.
- `StaffDashboard.SortByDate`: stability is not stated. The insertion sort keeps equal dates in input order, as JavaScript's stable `sort` does, but no lemma claims it.
