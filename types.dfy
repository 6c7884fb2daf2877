/** The record shapes of the scheduling app (src/types/index.ts). */
module Types {

  /** A value that may be absent (`T | undefined` / `T | null` in the source). */
  datatype Option<T> = None | Some(value: T)

  datatype Role = Admin | Staff

  /** A user of the app; the optional avatar URL is a rendering detail and is not kept. */
  datatype User = User(id: string, name: string, email: string, role: Role, department: string)

  /** A shift definition; times are "HH:MM" strings. */
  datatype Shift = Shift(id: string, name: string, startTime: string, endTime: string, color: string)

  /** A shift without its id (`Omit<Shift, 'id'>`), as handed to `addShift`. */
  datatype ShiftData = ShiftData(name: string, startTime: string, endTime: string, color: string)
  {
    function WithId(id: string): Shift
    {
      Shift(id, name, startTime, endTime, color)
    }
  }

  /** A named bundle of shifts, each to be staffed by `staffRequired` people. */
  datatype ShiftTemplate = ShiftTemplate(id: string, name: string, shifts: seq<Shift>, staffRequired: int)

  /** A template without its id (`Omit<ShiftTemplate, 'id'>`), as handed to `addShiftTemplate`. */
  datatype TemplateData = TemplateData(name: string, shifts: seq<Shift>, staffRequired: int)
  {
    function WithId(id: string): ShiftTemplate
    {
      ShiftTemplate(id, name, shifts, staffRequired)
    }
  }

  datatype Status = Scheduled | Completed | Missed

  /** One person on one shift on one date; `date` is a "YYYY-MM-DD" string. */
  datatype ShiftAssignment = ShiftAssignment(id: string, userId: string, shiftId: string, date: string, status: Status)
}
