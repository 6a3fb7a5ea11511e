/**
 * A subject of an other-university year: its page shows the subject found inside its
 * year and lets the subject be renamed, which saves the year's whole subject list.
 */
module ProffOtherSubjectDetail {
  import opened Wrappers
  import opened Strings
  import opened Seqs
  import opened ProffYears

  datatype Request = GetOther | PutYear(yearId: string, body: OtherYearBody)

  /** The year and the subject the route names, as `loadYear` finds them. */
  datatype Found = Found(year: Option<OtherYear>, subject: Option<Subject>)

  /**
   * `loadYear`'s lookup: the first year with `yearId`, and inside it the first subject with
   * `subjectId`; a failed request finds neither, and a missing year no subject.
   */
  function Lookup(response: Outcome<Option<seq<OtherYear>>>, yearId: string, subjectId: string): (f: Found)
    ensures f.year.Some? ==> f.year.value.id == Some(yearId) && response.Ok? && response.data.Some? && f.year.value in response.data.value
    ensures f.year.None? <==>
              (response.Failed? || response.data.None?
               || forall k :: 0 <= k < |response.data.value| ==> response.data.value[k].id != Some(yearId))
    ensures f.subject.Some? ==>
              f.year.Some? && f.year.value.subjects.Some?
              && f.subject.value in f.year.value.subjects.value && f.subject.value.id == Some(subjectId)
    ensures f.year.Some? && f.year.value.subjects.Some? && f.subject.None? ==>
              forall k :: 0 <= k < |f.year.value.subjects.value| ==> f.year.value.subjects.value[k].id != Some(subjectId)
  {
    if response.Failed? || response.data.None? then Found(None, None)
    else
      var years := response.data.value;
      var k := FindIndex(years, (y: OtherYear) => y.id == Some(yearId));
      if k < 0 then Found(None, None)
      else
        var subjects := years[k].subjects.GetOr([]);
        var j := FindIndex(subjects, (s: Subject) => s.id == Some(subjectId));
        Found(Some(years[k]), if j < 0 then None else Some(subjects[j]))
  }

  /** `subjects.map(s => s._id === subjectId ? { ...s, name } : s)`. */
  function RenameSubject(subjects: seq<Subject>, subjectId: string, name: string): (r: seq<Subject>)
    ensures |r| == |subjects|
    ensures forall k :: 0 <= k < |subjects| ==> r[k].id == subjects[k].id && r[k].order == subjects[k].order
    ensures forall k :: 0 <= k < |subjects| ==> r[k].name == (if subjects[k].id == Some(subjectId) then Some(name) else subjects[k].name)
  {
    seq(|subjects|, k requires 0 <= k < |subjects| => if subjects[k].id == Some(subjectId) then subjects[k].(name := Some(name)) else subjects[k])
  }

  /**
   * After a rename is saved, looking the subject up in the saved list finds it in the same
   * place under its new name.
   */
  lemma RenameThenLookup(subjects: seq<Subject>, subjectId: string, name: string)
    ensures var p := (s: Subject) => s.id == Some(subjectId);
            var j := FindIndex(RenameSubject(subjects, subjectId, name), p);
            j == FindIndex(subjects, p) && (j >= 0 ==> RenameSubject(subjects, subjectId, name)[j].name == Some(name))
  {
    var p := (s: Subject) => s.id == Some(subjectId);
    var r := RenameSubject(subjects, subjectId, name);
    assert forall k :: 0 <= k < |subjects| ==> (p(r[k]) <==> p(subjects[k]));
  }

  /** The page's state. */
  class SubjectDetail {
    const yearId: string
    const subjectId: string
    var year: Option<OtherYear>
    var subject: Option<Subject>
    var loading: bool
    var saving: bool
    var editOpen: bool
    var editName: string
    var requests: seq<Request>

    /** The page opened on the route; only a route naming both a year and a subject is fetched. */
    constructor (yearId: string, subjectId: string)
      ensures this.yearId == yearId && this.subjectId == subjectId && year.None? && subject.None?
      ensures loading == (yearId != "" && subjectId != "") && !saving && !editOpen && editName == ""
      ensures requests == if yearId != "" && subjectId != "" then [GetOther] else []
    {
      this.yearId := yearId;
      this.subjectId := subjectId;
      year := None;
      subject := None;
      loading := yearId != "" && subjectId != "";
      saving := false;
      editOpen := false;
      editName := "";
      requests := if yearId != "" && subjectId != "" then [GetOther] else [];
    }

    /** `Subject not found.` is on screen. */
    predicate NotFound()
      reads this
    {
      !loading && (year.None? || subject.None?)
    }

    /**
     * The fetch settled: year and subject are what the lookup finds, and loading ends; the
     * not-found message shows exactly when no subject with the route's id was found.
     */
    method Loaded(response: Outcome<Option<seq<OtherYear>>>)
      modifies this
      ensures year == Lookup(response, yearId, subjectId).year && subject == Lookup(response, yearId, subjectId).subject
      ensures NotFound() <==> Lookup(response, yearId, subjectId).subject.None?
      ensures !loading && saving == old(saving) && editOpen == old(editOpen) && editName == old(editName)
      ensures requests == old(requests)
    {
      var f := Lookup(response, yearId, subjectId);
      year := f.year;
      subject := f.subject;
      loading := false;
    }

    /** `openEdit`: the field starts from the subject's name. */
    method OpenEdit()
      requires !loading && subject.Some?
      modifies this
      ensures editOpen && editName == OrDefault(old(subject).value.name, "")
      ensures year == old(year) && subject == old(subject) && loading == old(loading) && saving == old(saving)
      ensures requests == old(requests)
    {
      editName := OrDefault(subject.value.name, "");
      editOpen := true;
    }

    /**
     * `saveSubjectName`, with `outcome` the update's result: nothing happens without a year
     * id, without a subject name, or for a blank new name; otherwise the year is saved with
     * the subject renamed in its list, and only a success renames the subject shown and
     * closes the modal. `saving` ends false.
     */
    method SaveSubjectName(outcome: Outcome<()>)
      modifies this
      ensures old(year).None? || !HasId(old(year).value.id) || old(subject).None? || old(subject).value.name.None?
              || old(subject).value.name.value == "" || IsBlank(old(editName)) ==>
                requests == old(requests) && subject == old(subject) && editOpen == old(editOpen) && saving == old(saving)
      ensures old(year).Some? && HasId(old(year).value.id) && old(subject).Some? && old(subject).value.name.Some?
              && old(subject).value.name.value != "" && !IsBlank(old(editName)) ==>
                var y := old(year).value;
                var name := Trim(old(editName));
                requests == old(requests) + [PutYear(y.id.value, OtherYearBody(y.name, RenameSubject(y.subjects.GetOr([]), subjectId, name)))]
                && !saving
                && (outcome.Ok? ==> subject == Some(old(subject).value.(name := Some(name))) && !editOpen)
                && (outcome.Failed? ==> subject == old(subject) && editOpen == old(editOpen))
      ensures year == old(year) && loading == old(loading) && editName == old(editName)
    {
      if year.None? || !HasId(year.value.id) || subject.None? || subject.value.name.None? || subject.value.name.value == "" {
        return;
      }
      var name := Trim(editName);
      if name == [] {
        return;
      }
      saving := true;
      var subjects := RenameSubject(year.value.subjects.GetOr([]), subjectId, name);
      requests := requests + [PutYear(year.value.id.value, OtherYearBody(year.value.name, subjects))];
      if outcome.Ok? {
        subject := Some(subject.value.(name := Some(name)));
        editOpen := false;
      }
      saving := false;
    }
  }
}
