/**
 * An other-university year's page: its subjects, with a modal to add or rename one and a
 * confirmation to delete one. Every change saves the year's name and subject list and
 * waits for the year to be re-fetched.
 */
module ProffOtherYearDetail {
  import opened Wrappers
  import opened Strings
  import opened Seqs
  import opened ProffYears

  datatype Request = GetOther | PutYear(yearId: string, body: OtherYearBody)

  /** `loadYear`'s result for route `yearId`: the first year with that id, or nothing if the request failed or none matches. */
  function FindYear(response: Outcome<Option<seq<OtherYear>>>, yearId: string): (r: Option<OtherYear>)
    ensures r.Some? ==> r.value.id == Some(yearId)
    ensures r.Some? ==> response.Ok? && response.data.Some? && r.value in response.data.value
    ensures r.None? <==>
              (response.Failed? || response.data.None?
               || forall k :: 0 <= k < |response.data.value| ==> response.data.value[k].id != Some(yearId))
  {
    if response.Failed? || response.data.None? then None
    else
      var years := response.data.value;
      var k := FindIndex(years, (y: OtherYear) => y.id == Some(yearId));
      if k < 0 then None else Some(years[k])
  }

  /** The subject an edit renames: the first with the edited subject's id. */
  function EditIndex(subjects: seq<Subject>, editing: Subject): (k: int)
    ensures -1 <= k < |subjects|
    ensures k >= 0 ==> subjects[k].id == editing.id
    ensures forall j :: 0 <= j < |subjects| && (k == -1 || j < k) ==> subjects[j].id != editing.id
  {
    FindIndex(subjects, (s: Subject) => s.id == editing.id)
  }

  /**
   * The subjects `submitSubject` saves for the trimmed name: an edit renames the subject
   * found by id (nothing changes without one); an add appends the name with the next order.
   */
  function SubmittedSubjects(subjects: seq<Subject>, editing: Option<Subject>, name: string): (r: seq<Subject>)
    ensures editing.None? ==> r == subjects + [Subject(None, Some(name), Some(|subjects|))]
    ensures editing.Some? ==> |r| == |subjects|
  {
    if editing.None? then subjects + [Subject(None, Some(name), Some(|subjects|))]
    else
      var idx := EditIndex(subjects, editing.value);
      if idx >= 0 then subjects[idx := subjects[idx].(name := Some(name))] else subjects
  }

  /**
   * An edit renames exactly the subject carrying the edited id, when the ids are distinct,
   * and leaves every other subject as it was; a missing id changes nothing.
   */
  lemma EditRenamesById(subjects: seq<Subject>, editing: Subject, name: string)
    requires forall i, j :: 0 <= i < j < |subjects| && subjects[i].id == editing.id ==> subjects[j].id != editing.id
    ensures var r := SubmittedSubjects(subjects, Some(editing), name);
            forall k :: 0 <= k < |subjects| ==>
              r[k] == (if subjects[k].id == editing.id then subjects[k].(name := Some(name)) else subjects[k])
  {
    var idx := EditIndex(subjects, editing);
    var r := SubmittedSubjects(subjects, Some(editing), name);
    forall k | 0 <= k < |subjects|
      ensures r[k] == (if subjects[k].id == editing.id then subjects[k].(name := Some(name)) else subjects[k])
    {
      if subjects[k].id == editing.id {
        assert idx == k;
      }
    }
  }

  /** `subjects.filter(s => s._id !== target._id)`. */
  function DeleteSubjects(subjects: seq<Subject>, target: Subject): (r: seq<Subject>)
    ensures forall s :: s in r <==> s in subjects && s.id != target.id
  {
    var keep := (s: Subject) => s.id != target.id;
    assert forall s :: s in Filter(subjects, keep) <==> s in subjects && keep(s) by {
      forall s ensures s in Filter(subjects, keep) <==> s in subjects && keep(s) {
        FilterMembership(subjects, keep, s);
      }
    }
    Filter(subjects, keep)
  }

  /** The subjects kept are the others in their order: deleting from a list joins the deletes of its parts. */
  lemma DeleteSubjectsAppend(a: seq<Subject>, b: seq<Subject>, target: Subject)
    ensures DeleteSubjects(a + b, target) == DeleteSubjects(a, target) + DeleteSubjects(b, target)
  {
    FilterAppend(a, b, (s: Subject) => s.id != target.id);
  }

  /** Every subject whose id differs from the target's is kept as often as it was there. */
  lemma DeleteSubjectsCount(subjects: seq<Subject>, target: Subject, s: Subject)
    ensures multiset(DeleteSubjects(subjects, target))[s] == if s.id == target.id then 0 else multiset(subjects)[s]
  {
    FilterCount(subjects, (x: Subject) => x.id != target.id, s);
  }

  /** The page's state. */
  class YearDetail {
    const yearId: string
    var year: Option<OtherYear>
    var loading: bool
    var saving: bool
    var modalOpen: bool
    var editing: Option<Subject>
    var formName: string
    var deleteTarget: Option<Subject>
    var requests: seq<Request>

    /** The page opened on route `yearId`; only a non-empty id is fetched. */
    constructor (yearId: string)
      ensures this.yearId == yearId && year.None? && loading == (yearId != "") && !saving
      ensures !modalOpen && editing.None? && formName == "" && deleteTarget.None?
      ensures requests == if yearId != "" then [GetOther] else []
    {
      this.yearId := yearId;
      year := None;
      loading := yearId != "";
      saving := false;
      modalOpen := false;
      editing := None;
      formName := "";
      deleteTarget := None;
      requests := if yearId != "" then [GetOther] else [];
    }

    /** The year view is on screen. */
    predicate YearShown()
      reads this
    {
      !loading && year.Some?
    }

    /** The first fetch settled. */
    method Loaded(response: Outcome<Option<seq<OtherYear>>>)
      modifies this
      ensures year == FindYear(response, yearId) && !loading
      ensures saving == old(saving) && modalOpen == old(modalOpen) && editing == old(editing)
      ensures formName == old(formName) && deleteTarget == old(deleteTarget) && requests == old(requests)
    {
      year := FindYear(response, yearId);
      loading := false;
    }

    /**
     * `saveYear(body)`, with `outcome` the update's result and `reload` the re-fetch's:
     * nothing happens for a year without an id; otherwise the body is sent and a success
     * waits for the year to be fetched again. `saving` ends false.
     */
    method SaveYear(body: OtherYearBody, outcome: Outcome<()>, reload: Outcome<Option<seq<OtherYear>>>)
      modifies this
      ensures old(year).None? || !HasId(old(year).value.id) ==>
                requests == old(requests) && year == old(year) && saving == old(saving)
      ensures old(year).Some? && HasId(old(year).value.id) ==>
                !saving
                && (outcome.Ok? ==>
                      requests == old(requests) + [PutYear(old(year).value.id.value, body), GetOther]
                      && year == FindYear(reload, yearId))
                && (outcome.Failed? ==> requests == old(requests) + [PutYear(old(year).value.id.value, body)] && year == old(year))
      ensures loading == old(loading) && modalOpen == old(modalOpen) && editing == old(editing)
      ensures formName == old(formName) && deleteTarget == old(deleteTarget)
    {
      if year.None? || !HasId(year.value.id) {
        return;
      }
      saving := true;
      requests := requests + [PutYear(year.value.id.value, body)];
      if outcome.Ok? {
        requests := requests + [GetOther];
        year := FindYear(reload, yearId);
      }
      saving := false;
    }

    /** `openAddSubject`. */
    method OpenAddSubject()
      modifies this
      ensures modalOpen && editing.None? && formName == ""
      ensures year == old(year) && loading == old(loading) && saving == old(saving)
      ensures deleteTarget == old(deleteTarget) && requests == old(requests)
    {
      editing := None;
      formName := "";
      modalOpen := true;
    }

    /** `openEditSubject(sub)`. */
    method OpenEditSubject(sub: Subject)
      modifies this
      ensures modalOpen && editing == Some(sub) && formName == OrDefault(sub.name, "")
      ensures year == old(year) && loading == old(loading) && saving == old(saving)
      ensures deleteTarget == old(deleteTarget) && requests == old(requests)
    {
      editing := Some(sub);
      formName := OrDefault(sub.name, "");
      modalOpen := true;
    }

    /**
     * `submitSubject`, from the modal of the year view: a blank name does nothing;
     * otherwise the subjects are copied, the edited one renamed in place (or the new one
     * appended), the year saved with them, and the modal closed.
     */
    method SubmitSubject(outcome: Outcome<()>, reload: Outcome<Option<seq<OtherYear>>>)
      requires YearShown()
      modifies this
      ensures IsBlank(old(formName)) ==>
                requests == old(requests) && year == old(year) && modalOpen == old(modalOpen) && saving == old(saving)
      ensures !IsBlank(old(formName)) ==>
                var y := old(year).value;
                var body := OtherYearBody(y.name, SubmittedSubjects(y.subjects.GetOr([]), old(editing), Trim(old(formName))));
                !modalOpen
                && (!HasId(y.id) ==> requests == old(requests) && year == old(year) && saving == old(saving))
                && (HasId(y.id) ==>
                      !saving
                      && (outcome.Ok? ==> requests == old(requests) + [PutYear(y.id.value, body), GetOther] && year == FindYear(reload, yearId))
                      && (outcome.Failed? ==> requests == old(requests) + [PutYear(y.id.value, body)] && year == old(year)))
      ensures loading == old(loading) && editing == old(editing) && formName == old(formName) && deleteTarget == old(deleteTarget)
    {
      var name := Trim(formName);
      if name == [] {
        return;
      }
      var subjects := year.value.subjects.GetOr([]);
      if editing.Some? {
        var idx := EditIndex(subjects, editing.value);
        if idx >= 0 {
          subjects := subjects[idx := subjects[idx].(name := Some(name))];
        }
      } else {
        subjects := subjects + [Subject(None, Some(name), Some(|subjects|))];
      }
      SaveYear(OtherYearBody(year.value.name, subjects), outcome, reload);
      modalOpen := false;
    }

    /** A subject's delete button asks for confirmation. */
    method AskDelete(sub: Subject)
      modifies this
      ensures deleteTarget == Some(sub)
      ensures year == old(year) && loading == old(loading) && saving == old(saving)
      ensures modalOpen == old(modalOpen) && editing == old(editing) && formName == old(formName) && requests == old(requests)
    {
      deleteTarget := Some(sub);
    }

    /**
     * The dialog's Delete button, from the year view: `confirmDeleteSubject` runs and the
     * dialog closes at once (`onClose` clears the target whatever the handler does).
     * Nothing is sent without a target or a subject list; otherwise the year is saved
     * without the subjects sharing the target's id.
     */
    method ConfirmDelete(outcome: Outcome<()>, reload: Outcome<Option<seq<OtherYear>>>)
      requires YearShown()
      modifies this
      ensures deleteTarget.None?
      ensures old(deleteTarget).None? || old(year).value.subjects.None? ==>
                requests == old(requests) && year == old(year) && saving == old(saving)
      ensures old(deleteTarget).Some? && old(year).value.subjects.Some? ==>
                var y := old(year).value;
                var body := OtherYearBody(y.name, DeleteSubjects(y.subjects.value, old(deleteTarget).value));
                (!HasId(y.id) ==> requests == old(requests) && year == old(year) && saving == old(saving))
                && (HasId(y.id) ==>
                      !saving
                      && (outcome.Ok? ==> requests == old(requests) + [PutYear(y.id.value, body), GetOther] && year == FindYear(reload, yearId))
                      && (outcome.Failed? ==> requests == old(requests) + [PutYear(y.id.value, body)] && year == old(year)))
      ensures loading == old(loading) && modalOpen == old(modalOpen) && editing == old(editing) && formName == old(formName)
    {
      if deleteTarget.Some? && year.value.subjects.Some? {
        var subjects := DeleteSubjects(year.value.subjects.value, deleteTarget.value);
        SaveYear(OtherYearBody(year.value.name, subjects), outcome, reload);
      }
      deleteTarget := None;
    }
  }
}
