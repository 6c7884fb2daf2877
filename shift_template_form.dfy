/**
 * The template form's logic (src/components/shifts/ShiftTemplateForm.tsx):
 * toggling a shift in the selection, the staff-required options, when submit
 * is enabled, and how submit turns the form into an add or an update on the
 * store.
 */
module ShiftTemplateForm {
  import opened Types
  import opened ArrayOps
  import opened Strings
  import ShiftContext

  /**
   * `handleShiftToggle`: a selected id is removed (every occurrence, the other
   * ids keeping their order); an unselected id is appended.
   */
  function ToggleShift(prev: seq<string>, shiftId: string): (r: seq<string>)
    ensures shiftId in prev ==> shiftId !in r && (forall id :: id in r <==> id in prev && id != shiftId)
    ensures shiftId in prev ==> IsSubsequence(r, prev) && |r| < |prev|
    ensures shiftId in prev ==> forall id :: id != shiftId ==> multiset(r)[id] == multiset(prev)[id]
    ensures shiftId !in prev ==> r == prev + [shiftId]
    ensures shiftId in r <==> shiftId !in prev
  {
    if shiftId in prev then
      var keep := (id: string) => id != shiftId;
      FilterSubsequence(keep, prev);
      FilterMultiset(keep, prev);
      FilterDrops(keep, prev, shiftId);
      var r := Filter(keep, prev);
      r
    else
      prev + [shiftId]
  }

  /** Ticking an unticked shift and unticking it again restores the selection. */
  lemma ToggleTwiceAbsent(prev: seq<string>, shiftId: string)
    requires shiftId !in prev
    ensures ToggleShift(ToggleShift(prev, shiftId), shiftId) == prev
  {
    var keep := (id: string) => id != shiftId;
    FilterConcat(keep, prev, [shiftId]);
    FilterKeepsAll(keep, prev);
    FilterKeepsNone(keep, [shiftId]);
    assert Filter(keep, prev + [shiftId]) == prev + [];
  }

  /** Unticking a ticked shift and ticking it again moves it, once, to the end. */
  lemma ToggleTwicePresent(prev: seq<string>, shiftId: string)
    requires shiftId in prev
    ensures ToggleShift(ToggleShift(prev, shiftId), shiftId) == Filter((id: string) => id != shiftId, prev) + [shiftId]
  {
  }

  /**
   * `shifts.filter(shift => selectedShifts.includes(shift.id))`: the selected
   * shifts in the order of the shift collection, each as often as there.
   */
  function SelectedShifts(shifts: seq<Shift>, selected: seq<string>): (r: seq<Shift>)
    ensures forall s :: s in r <==> s in shifts && s.id in selected
    ensures forall s: Shift :: s.id in selected ==> multiset(r)[s] == multiset(shifts)[s]
    ensures IsSubsequence(r, shifts)
  {
    var isSelected := (s: Shift) => s.id in selected;
    FilterMultiset(isSelected, shifts);
    FilterSubsequence(isSelected, shifts);
    Filter(isSelected, shifts)
  }

  /**
   * Submit keeps the collection's order, not the order of ticking: with shifts
   * a, b, c and c ticked before a, the template holds a then c.
   */
  lemma SelectionFollowsCollectionOrder(a: Shift, b: Shift, c: Shift)
    requires a.id != b.id && b.id != c.id && a.id != c.id
    ensures SelectedShifts([a, b, c], [c.id, a.id]) == [a, c]
  {
    FilterOfThree((s: Shift) => s.id in [c.id, a.id], a, b, c);
  }

  lemma FilterOfThree(p: Shift -> bool, a: Shift, b: Shift, c: Shift)
    requires p(a) && !p(b) && p(c)
    ensures Filter(p, [a, b, c]) == [a, c]
  {
    FilterCons(p, c, []);
    assert [b, c] == [b] + [c];
    FilterCons(p, b, [c]);
    assert [a, b, c] == [a] + [b, c];
    FilterCons(p, a, [b, c]);
  }

  /** One entry of the staff-required select. */
  datatype SelectOption = SelectOption(value: string, labelText: string)

  /** `staffOptions`: values and labels "1" to "5". */
  function StaffOptions(): (r: seq<SelectOption>)
    ensures |r| == 5
    ensures forall i :: 0 <= i < 5 ==> r[i].value == r[i].labelText && IsNumeral(r[i].value)
  {
    seq(5, i requires 0 <= i < 5 => SelectOption(NatToString(i + 1), NatToString(i + 1)))
  }

  /** The options are exactly "1" to "5", and each reads back as its number with `parseInt`. */
  lemma StaffOptionValues()
    ensures forall i :: 0 <= i < 5 ==> ParseDigits(StaffOptions()[i].value) == i + 1
    ensures seq(5, i requires 0 <= i < 5 => StaffOptions()[i].value) == ["1", "2", "3", "4", "5"]
  {
    forall i | 0 <= i < 5
      ensures ParseDigits(StaffOptions()[i].value) == i + 1
    {
      ParseNatToString(i + 1);
    }
    assert NatToString(1) == "1" && NatToString(2) == "2" && NatToString(3) == "3";
    assert NatToString(4) == "4" && NatToString(5) == "5";
  }

  /** The submit button is enabled exactly when a name is given and at least one shift is ticked. */
  function CanSubmit(name: string, selected: seq<string>): (r: bool)
    ensures r <==> |name| > 0 && |selected| > 0
  {
    !(name == "" || |selected| == 0)
  }

  /**
   * Submit checks the ticked ids, not the shifts they select: with a name and
   * ticked ids none of which belongs to a shift of the collection, submit is
   * enabled and the template gets no shifts.
   */
  lemma SubmitEnabledWithoutShifts(name: string, selected: seq<string>, shifts: seq<Shift>)
    requires |name| > 0 && |selected| > 0
    requires forall s :: s in shifts ==> s.id !in selected
    ensures CanSubmit(name, selected)
    ensures SelectedShifts(shifts, selected) == []
  {
  }

  /** What submit asks of the store. */
  datatype SubmitAction =
    | UpdateTemplate(updated: ShiftTemplate)
    | AddTemplate(added: TemplateData)

  /**
   * `handleSubmit`: the template is the form's name, the parsed staff count and
   * the ticked shifts in collection order; a non-empty `templateId` makes it an
   * update of that template, anything else an addition. `staffRequired` holds
   * one of the option values or a stored count's decimal numeral.
   */
  function Submit(templateId: Option<string>, name: string, staffRequired: string, selected: seq<string>, shifts: seq<Shift>): (r: SubmitAction)
    requires IsNumeral(staffRequired)
    ensures r.UpdateTemplate? <==> templateId.Some? && templateId.value != ""
    ensures r.UpdateTemplate? ==> (r.updated.id == templateId.value && r.updated.name == name &&
      r.updated.staffRequired == ParseDigits(staffRequired) && r.updated.shifts == SelectedShifts(shifts, selected))
    ensures r.AddTemplate? ==> (r.added.name == name &&
      r.added.staffRequired == ParseDigits(staffRequired) && r.added.shifts == SelectedShifts(shifts, selected))
  {
    var templateData := TemplateData(name, SelectedShifts(shifts, selected), ParseDigits(staffRequired));
    if templateId.Some? && templateId.value != "" then
      UpdateTemplate(templateData.WithId(templateId.value))
    else
      AddTemplate(templateData)
  }

  /** Submitting with one of the select's options stores that option's number. */
  lemma SubmitOptionCount(templateId: Option<string>, name: string, i: nat, selected: seq<string>, shifts: seq<Shift>)
    requires i < 5
    ensures IsNumeral(StaffOptions()[i].value)
    ensures var action := Submit(templateId, name, StaffOptions()[i].value, selected, shifts);
      (action.UpdateTemplate? ==> action.updated.staffRequired == i + 1) &&
      (action.AddTemplate? ==> action.added.staffRequired == i + 1)
  {
    StaffOptionValues();
  }

  /** `handleSubmit` against the store: it performs the action `Submit` chose; `newId` is the id an addition draws. */
  method HandleSubmit(store: ShiftContext.ShiftStore, templateId: Option<string>, name: string, staffRequired: string,
                      selected: seq<string>, newId: string)
    requires IsNumeral(staffRequired)
    modifies store
    ensures var action := Submit(templateId, name, staffRequired, selected, old(store.shifts));
      match action
      case UpdateTemplate(t) =>
        store.shiftTemplates == ShiftContext.ReplaceById(old(store.shiftTemplates), ShiftContext.TemplateId, t)
      case AddTemplate(data) =>
        store.shiftTemplates == old(store.shiftTemplates) + [data.WithId(newId)]
    ensures store.shifts == old(store.shifts) && store.shiftAssignments == old(store.shiftAssignments)
  {
    var action := Submit(templateId, name, staffRequired, selected, store.shifts);
    match action {
      case UpdateTemplate(t) =>
        store.UpdateShiftTemplate(t);
      case AddTemplate(data) =>
        store.AddShiftTemplate(data, newId);
    }
  }
}
