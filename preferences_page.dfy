/** The job-preferences page: the category selection the seeker edits, and the guard before the
    selection is posted to /api/job-preferences. */
module PreferencesPage {
  import opened Wrappers
  import opened Lists
  import opened Http
  import opened Schema
  import opened Auth
  import PreferencesRoute

  function OtherThan(id: int): int -> bool {
    (x: int) => x != id
  }

  /** `handleCategoryToggle`: a selected id is removed, any other id is appended. */
  function Toggle(selected: seq<int>, id: int): (r: seq<int>)
    ensures id in r <==> id !in selected
    ensures forall x :: x != id ==> (x in r <==> x in selected)
    ensures id !in selected ==> r == selected + [id]
  {
    if id in selected then Filter(selected, OtherThan(id)) else selected + [id]
  }

  /** Toggling an id twice gives back the original membership; starting from an unselected id it
      gives back the very same list. */
  lemma ToggleTwice(selected: seq<int>, id: int)
    ensures forall x :: x in Toggle(Toggle(selected, id), id) <==> x in selected
    ensures id !in selected ==> Toggle(Toggle(selected, id), id) == selected
  {
    if id !in selected {
      FilterAppend(selected, [id], OtherThan(id));
      FilterAll(selected, OtherThan(id));
      FilterNone([id], OtherThan(id));
    }
  }

  /** The ids other than the toggled one stay in the same relative order. */
  lemma ToggleKeepsOthers(selected: seq<int>, id: int)
    ensures Filter(Toggle(selected, id), OtherThan(id)) == Filter(selected, OtherThan(id))
  {
    if id in selected {
      FilterFilter(selected, OtherThan(id), OtherThan(id));
    } else {
      FilterAppend(selected, [id], OtherThan(id));
      FilterNone([id], OtherThan(id));
    }
  }

  /** A selection without repeats keeps none after a toggle. */
  lemma ToggleKeepsDistinct(selected: seq<int>, id: int)
    requires Distinct(selected)
    ensures Distinct(Toggle(selected, id))
  {
    if id in selected {
      FilterDistinct(selected, OtherThan(id));
    } else {
      var r := selected + [id];
      assert forall i :: 0 <= i < |selected| ==> r[i] == selected[i];
    }
  }

  /** The selection after a sequence of clicks, starting from nothing selected. */
  function Toggles(clicks: seq<int>): seq<int> {
    if |clicks| == 0 then [] else Toggle(Toggles(clicks[..|clicks| - 1]), clicks[|clicks| - 1])
  }

  /** Every selection a user can build by toggling from the empty one has no repeats. */
  lemma {:induction false} TogglesStayDistinct(clicks: seq<int>)
    ensures Distinct(Toggles(clicks))
  {
    if |clicks| > 0 {
      TogglesStayDistinct(clicks[..|clicks| - 1]);
      ToggleKeepsDistinct(Toggles(clicks[..|clicks| - 1]), clicks[|clicks| - 1]);
    }
  }

  /** `handleSavePreferences` before its request: an empty selection only sets the error. */
  datatype SaveStep = NotSent(error: string) | Sent(categoryIds: seq<int>)

  function SavePreferences(selected: seq<int>): (r: SaveStep)
    ensures r.NotSent? <==> |selected| == 0
    ensures r.NotSent? ==> r.error == "Please select at least one job category"
    ensures r.Sent? ==> r.categoryIds == selected
  {
    if |selected| == 0 then NotSent("Please select at least one job category") else Sent(selected)
  }

  /** When the request the page sends is saved, the seeker's stored preferences are exactly the
      selection on screen, in the order it was built. */
  lemma SavedIsSelection(t: Tables, header: Option<string>, verify: Verifier, selected: seq<int>,
                         fault: Option<nat>)
    requires SavePreferences(selected).Sent?
    requires PreferencesRoute.Save(t, header, verify, Some(SavePreferences(selected).categoryIds), fault).0.Success?
    ensures var t' := PreferencesRoute.Save(t, header, verify, Some(selected), fault).1;
      var personId := PreferencesRoute.PersonOfSeeker(t, Authenticate(header, verify).payload.userId).value;
      PreferencesRoute.CategoriesOf(t'.preferences, personId) == selected
  {
    PreferencesRoute.SaveReplacesSelection(t, header, verify, Some(selected), fault);
  }
}
