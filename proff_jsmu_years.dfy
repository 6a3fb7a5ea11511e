/**
 * The JSMU year list: the years in order, each with an inline-editable name, its paper
 * count, a remove button and a link to its papers; a button adds the next year.
 */
module ProffJsmuYears {
  import opened Wrappers
  import opened Strings
  import opened Sorting
  import opened ProffYears

  datatype Request =
    | GetJsmu
    | PostYear(name: string, order: int)
    | PutYearName(yearId: Option<string>, name: string)
    | DeleteYear(yearId: Option<string>)

  /** A JSMU year's sort key. */
  function YearKey(y: JsmuYear): int {
    OrderKey(y.order)
  }

  /** `prev.map(y => y._id === yearId ? { ...y, name } : y)`. */
  function RenameYear(years: seq<JsmuYear>, yearId: Option<string>, name: string): (r: seq<JsmuYear>)
    ensures |r| == |years|
    ensures forall k :: 0 <= k < |years| ==> r[k].id == years[k].id && r[k].order == years[k].order && r[k].papers == years[k].papers
    ensures forall k :: 0 <= k < |years| ==> r[k].name == (if years[k].id == yearId then Some(name) else years[k].name)
  {
    seq(|years|, k requires 0 <= k < |years| => if years[k].id == yearId then years[k].(name := Some(name)) else years[k])
  }

  /** Renaming leaves every order where it was, so the list stays in display order. */
  lemma RenameKeepsOrder(years: seq<JsmuYear>, yearId: Option<string>, name: string)
    requires SortedBy(years, YearKey)
    ensures SortedBy(RenameYear(years, yearId, name), YearKey)
  {
    var r := RenameYear(years, yearId, name);
    forall x, y | 0 <= x < y < |r| ensures YearKey(r[x]) <= YearKey(r[y]) {
      assert YearKey(r[x]) == YearKey(years[x]) && YearKey(r[y]) == YearKey(years[y]);
    }
  }

  /** Renaming twice to the same name is renaming once. */
  lemma RenameIdempotent(years: seq<JsmuYear>, yearId: Option<string>, name: string)
    ensures RenameYear(RenameYear(years, yearId, name), yearId, name) == RenameYear(years, yearId, name)
  {
  }

  /** The inline name is committed on blur when its trimmed value is non-empty and not the current name. */
  predicate CommitsRename(value: string, current: Option<string>) {
    Trim(value) != "" && Trim(value) != OrDefault(current, "")
  }

  /** Once a rename is committed, blurring again with the same text commits nothing. */
  lemma CommitOnce(value: string, current: Option<string>)
    requires CommitsRename(value, current)
    ensures !CommitsRename(value, Some(Trim(value)))
  {
  }

  /** The paper count shown: the list's length, or 4 when the year has no paper list. */
  function PaperCount(y: JsmuYear): (n: nat)
    ensures y.papers.Some? ==> n == |y.papers.value|
    ensures y.papers.None? ==> n == 4
  {
    if y.papers.Some? then |y.papers.value| else 4
  }

  /** The page's state. */
  class YearsPage {
    var years: seq<JsmuYear>
    var loading: bool
    var adding: bool
    var deletingId: Mark
    var requests: seq<Request>

    /** The page opened: the list is being fetched. */
    constructor ()
      ensures years == [] && loading && !adding && deletingId == NoMark && requests == [GetJsmu]
    {
      years := [];
      loading := true;
      adding := false;
      deletingId := NoMark;
      requests := [GetJsmu];
    }

    /** The Add buttons' `disabled`. */
    predicate AddDisabled()
      reads this
    {
      adding
    }

    /** A year's remove button is disabled while that year is being removed. */
    predicate RemoveDisabled(yearId: Option<string>)
      reads this
    {
      deletingId == Deleting(yearId)
    }

    /** `load`, on the list response: the normalized years, or none when the request failed. */
    method Load(response: Outcome<Option<array<JsmuYear>>>)
      modifies this, if response.Ok? && response.data.Some? then {response.data.value} else {}
      ensures NormalizedFrom(years, old(Fetched(response)), YearKey)
      ensures loading == old(loading) && adding == old(adding) && deletingId == old(deletingId)
      ensures requests == old(requests)
    {
      if response.Failed? {
        years := [];
        return;
      }
      years := NormalizeYears(response.data, YearKey);
    }

    /** The first fetch settled: the years are loaded and loading ends. */
    method Loaded(response: Outcome<Option<array<JsmuYear>>>)
      modifies this, if response.Ok? && response.data.Some? then {response.data.value} else {}
      ensures NormalizedFrom(years, old(Fetched(response)), YearKey)
      ensures !loading && adding == old(adding) && deletingId == old(deletingId)
      ensures requests == old(requests)
    {
      Load(response);
      loading := false;
    }

    /** `addYear` starts: the next year is posted as `Year n+1` with order `n`, `n` the year count. */
    method StartAdd()
      requires !AddDisabled()
      modifies this
      ensures adding
      ensures requests == old(requests) + [PostYear(NewYearName(|years|), |years|)]
      ensures years == old(years) && loading == old(loading) && deletingId == old(deletingId)
    {
      adding := true;
      requests := requests + [PostYear(NewYearName(|years|), |years|)];
    }

    /**
     * `addYear` settles with `outcome`; after a success the list is re-fetched (`reload`
     * its response) before `adding` is reset, which happens whatever the outcome.
     */
    method FinishAdd(outcome: Outcome<()>, reload: Outcome<Option<array<JsmuYear>>>)
      requires adding
      modifies this, if reload.Ok? && reload.data.Some? then {reload.data.value} else {}
      ensures !adding
      ensures outcome.Ok? ==> requests == old(requests) + [GetJsmu] && NormalizedFrom(years, old(Fetched(reload)), YearKey)
      ensures outcome.Failed? ==> requests == old(requests) && years == old(years)
      ensures loading == old(loading) && deletingId == old(deletingId)
    {
      if outcome.Ok? {
        requests := requests + [GetJsmu];
        Load(reload);
      }
      adding := false;
    }

    /** `updateYearName`: the new name is sent, and only a success renames the matching year. */
    method UpdateYearName(yearId: Option<string>, name: string, outcome: Outcome<()>)
      modifies this
      ensures requests == old(requests) + [PutYearName(yearId, name)]
      ensures outcome.Ok? ==> years == RenameYear(old(years), yearId, name)
      ensures outcome.Failed? ==> years == old(years)
      ensures loading == old(loading) && adding == old(adding) && deletingId == old(deletingId)
    {
      requests := requests + [PutYearName(yearId, name)];
      if outcome.Ok? {
        years := RenameYear(years, yearId, name);
      }
    }

    /** Leaving year `i`'s name input with `value` in it: the trimmed value is saved only if it commits. */
    method Blur(i: nat, value: string, outcome: Outcome<()>)
      requires i < |years|
      modifies this
      ensures CommitsRename(value, old(years[i].name)) ==>
                requests == old(requests) + [PutYearName(old(years[i].id), Trim(value))]
                && years == (if outcome.Ok? then RenameYear(old(years), old(years[i].id), Trim(value)) else old(years))
      ensures !CommitsRename(value, old(years[i].name)) ==> requests == old(requests) && years == old(years)
      ensures loading == old(loading) && adding == old(adding) && deletingId == old(deletingId)
    {
      if CommitsRename(value, years[i].name) {
        UpdateYearName(years[i].id, Trim(value), outcome);
      }
    }

    /** `removeYear` starts: the year is marked as being removed and its delete sent. */
    method StartRemove(yearId: Option<string>)
      requires !RemoveDisabled(yearId)
      modifies this
      ensures RemoveDisabled(yearId)
      ensures requests == old(requests) + [DeleteYear(yearId)]
      ensures years == old(years) && loading == old(loading) && adding == old(adding)
    {
      deletingId := Deleting(yearId);
      requests := requests + [DeleteYear(yearId)];
    }

    /**
     * `removeYear` settles with `outcome`: after a success the list is re-fetched (`reload`
     * its response); the mark is cleared whatever the outcome.
     */
    method FinishRemove(outcome: Outcome<()>, reload: Outcome<Option<array<JsmuYear>>>)
      modifies this, if reload.Ok? && reload.data.Some? then {reload.data.value} else {}
      ensures deletingId == NoMark
      ensures outcome.Ok? ==> requests == old(requests) + [GetJsmu] && NormalizedFrom(years, old(Fetched(reload)), YearKey)
      ensures outcome.Failed? ==> requests == old(requests) && years == old(years)
      ensures loading == old(loading) && adding == old(adding)
    {
      if outcome.Ok? {
        requests := requests + [GetJsmu];
        Load(reload);
      }
      deletingId := NoMark;
    }
  }
}
