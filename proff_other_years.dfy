/**
 * The other-university year list: the years in order with their subject counts; a modal
 * adds a year or renames one, and a confirmation removes one.
 */
module ProffOtherYears {
  import opened Wrappers
  import opened Strings
  import opened ProffYears

  datatype Request =
    | GetOther
    | PostYear(name: string, order: int)
    | PutYear(yearId: Option<string>, body: OtherYearBody)
    | DeleteYear(yearId: Option<string>)

  /** An other-university year's sort key. */
  function YearKey(y: OtherYear): int {
    OrderKey(y.order)
  }

  /** The request `submitYear` sends for the trimmed name: a rename carrying the year's subjects, or a create at the end. */
  function SubmitRequest(editing: Option<OtherYear>, name: string, count: nat): (r: Request)
    ensures editing.Some? ==> r == PutYear(editing.value.id, OtherYearBody(Some(name), editing.value.subjects.GetOr([])))
    ensures editing.None? ==> r == PostYear(name, count)
  {
    if editing.Some? then PutYear(editing.value.id, OtherYearBody(Some(name), editing.value.subjects.GetOr([])))
    else PostYear(name, count)
  }

  /** The page's state. */
  class YearsPage {
    var years: seq<OtherYear>
    var loading: bool
    var adding: bool
    var deletingId: Mark
    var modalOpen: bool
    var editing: Option<OtherYear>
    var formName: string
    var deleteTarget: Option<OtherYear>
    var requests: seq<Request>

    /** The page opened: the list is being fetched. */
    constructor ()
      ensures years == [] && loading && !adding && deletingId == NoMark
      ensures !modalOpen && editing.None? && formName == "" && deleteTarget.None? && requests == [GetOther]
    {
      years := [];
      loading := true;
      adding := false;
      deletingId := NoMark;
      modalOpen := false;
      editing := None;
      formName := "";
      deleteTarget := None;
      requests := [GetOther];
    }

    /** `load`, on the list response: the normalized years, or none when the request failed. */
    method Load(response: Outcome<Option<array<OtherYear>>>)
      modifies this, if response.Ok? && response.data.Some? then {response.data.value} else {}
      ensures NormalizedFrom(years, old(Fetched(response)), YearKey)
      ensures loading == old(loading) && adding == old(adding) && deletingId == old(deletingId)
      ensures modalOpen == old(modalOpen) && editing == old(editing) && formName == old(formName)
      ensures deleteTarget == old(deleteTarget) && requests == old(requests)
    {
      if response.Failed? {
        years := [];
        return;
      }
      years := NormalizeYears(response.data, YearKey);
    }

    /** The first fetch settled: the years are loaded and loading ends. */
    method Loaded(response: Outcome<Option<array<OtherYear>>>)
      modifies this, if response.Ok? && response.data.Some? then {response.data.value} else {}
      ensures NormalizedFrom(years, old(Fetched(response)), YearKey)
      ensures !loading && adding == old(adding) && deletingId == old(deletingId)
      ensures modalOpen == old(modalOpen) && editing == old(editing) && formName == old(formName)
      ensures deleteTarget == old(deleteTarget) && requests == old(requests)
    {
      Load(response);
      loading := false;
    }

    /** `openAddYear`: the name offered is `Year n+1`, `n` the year count. */
    method OpenAddYear()
      modifies this
      ensures modalOpen && editing.None? && formName == NewYearName(|years|)
      ensures years == old(years) && loading == old(loading) && adding == old(adding)
      ensures deletingId == old(deletingId) && deleteTarget == old(deleteTarget) && requests == old(requests)
    {
      editing := None;
      formName := NewYearName(|years|);
      modalOpen := true;
    }

    /** `openEditYear(yr)`: the form starts from the year's name. */
    method OpenEditYear(yr: OtherYear)
      modifies this
      ensures modalOpen && editing == Some(yr) && formName == OrDefault(yr.name, "")
      ensures years == old(years) && loading == old(loading) && adding == old(adding)
      ensures deletingId == old(deletingId) && deleteTarget == old(deleteTarget) && requests == old(requests)
    {
      editing := Some(yr);
      formName := OrDefault(yr.name, "");
      modalOpen := true;
    }

    /**
     * `submitYear`, with `outcome` the save's result and `reload` the re-fetch's: a blank
     * name does nothing; otherwise the trimmed name is saved, and a success re-fetches the
     * list and closes the modal. `adding` ends false either way.
     */
    method SubmitYear(outcome: Outcome<()>, reload: Outcome<Option<array<OtherYear>>>)
      modifies this, if reload.Ok? && reload.data.Some? then {reload.data.value} else {}
      ensures IsBlank(old(formName)) ==>
                years == old(years) && modalOpen == old(modalOpen) && requests == old(requests) && adding == old(adding)
      ensures !IsBlank(old(formName)) ==>
                var sent := old(requests) + [SubmitRequest(old(editing), Trim(old(formName)), |old(years)|)];
                !adding
                && (outcome.Ok? ==>
                      requests == sent + [GetOther] && NormalizedFrom(years, old(Fetched(reload)), YearKey) && !modalOpen)
                && (outcome.Failed? ==> requests == sent && years == old(years) && modalOpen == old(modalOpen))
      ensures loading == old(loading) && deletingId == old(deletingId) && editing == old(editing)
      ensures formName == old(formName) && deleteTarget == old(deleteTarget)
    {
      var name := Trim(formName);
      if name == [] {
        return;
      }
      adding := true;
      requests := requests + [SubmitRequest(editing, name, |years|)];
      if outcome.Ok? {
        requests := requests + [GetOther];
        Load(reload);
        modalOpen := false;
      }
      adding := false;
    }

    /** A year's delete button asks for confirmation. */
    method AskDelete(yr: OtherYear)
      modifies this
      ensures deleteTarget == Some(yr)
      ensures years == old(years) && loading == old(loading) && adding == old(adding) && deletingId == old(deletingId)
      ensures modalOpen == old(modalOpen) && editing == old(editing) && formName == old(formName)
      ensures requests == old(requests)
    {
      deleteTarget := Some(yr);
    }

    /**
     * The dialog's Delete button: `confirmDeleteYear` runs and the dialog closes at once
     * (`onClose` clears the target whatever the handler does). Nothing is sent without a
     * target; otherwise the year is marked, its delete sent, and a success re-fetches the
     * list. The mark is cleared whatever the outcome.
     */
    method ConfirmDelete(outcome: Outcome<()>, reload: Outcome<Option<array<OtherYear>>>)
      modifies this, if reload.Ok? && reload.data.Some? then {reload.data.value} else {}
      ensures deleteTarget.None?
      ensures old(deleteTarget).None? ==>
                years == old(years) && requests == old(requests) && deletingId == old(deletingId)
      ensures old(deleteTarget).Some? ==>
                var sent := old(requests) + [DeleteYear(old(deleteTarget).value.id)];
                deletingId == NoMark
                && (outcome.Ok? ==> requests == sent + [GetOther] && NormalizedFrom(years, old(Fetched(reload)), YearKey))
                && (outcome.Failed? ==> requests == sent && years == old(years))
      ensures loading == old(loading) && adding == old(adding)
      ensures modalOpen == old(modalOpen) && editing == old(editing) && formName == old(formName)
    {
      if deleteTarget.None? {
        return;
      }
      deletingId := Deleting(deleteTarget.value.id);
      requests := requests + [DeleteYear(deleteTarget.value.id)];
      if outcome.Ok? {
        requests := requests + [GetOther];
        Load(reload);
      }
      deletingId := NoMark;
      deleteTarget := None;
    }
  }
}
