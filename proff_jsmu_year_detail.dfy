/**
 * A JSMU year's page: its name and its papers (the four default papers when it has none),
 * with a modal to add or edit a paper and a confirmation to delete one. Every change saves
 * the whole year and re-fetches it.
 */
module ProffJsmuYearDetail {
  import opened Wrappers
  import opened Strings
  import opened Seqs
  import opened ProffYears

  /** The papers a year without papers starts with; they carry no id. */
  const DefaultPapers: seq<Paper> := [
    Paper(None, Some("Paper 1 (Mix MCQs)"), Some("mcq"), Some(1)),
    Paper(None, Some("Paper 2 (Mix MCQs)"), Some("mcq"), Some(2)),
    Paper(None, Some("OSPE 1"), Some("ospe"), Some(3)),
    Paper(None, Some("OSPE 2"), Some("ospe"), Some(4))
  ]

  /** The paper modal's fields. */
  datatype PaperForm = PaperForm(name: string, kind: string, order: int)

  /** The body of a year update. */
  datatype YearBody = YearBody(name: Option<string>, papers: Option<seq<Paper>>)

  datatype Request = GetJsmu | PutYear(yearId: string, body: YearBody)

  /** The year as the page keeps it: a year without papers gets the default papers. */
  function WithDefaults(y: JsmuYear): (r: JsmuYear)
    ensures r.id == y.id && r.name == y.name && r.order == y.order
    ensures y.papers.Some? && |y.papers.value| > 0 ==> r.papers == y.papers
    ensures y.papers.None? || |y.papers.value| == 0 ==> r.papers == Some(DefaultPapers)
  {
    if y.papers.Some? && |y.papers.value| > 0 then y else y.(papers := Some(DefaultPapers))
  }

  /**
   * `loadYear`'s result for route `yearId`, on the list response: the first year with that
   * id, with the defaults applied, or nothing if the request failed or no year matches.
   */
  function FindYear(response: Outcome<Option<seq<JsmuYear>>>, yearId: string): (r: Option<JsmuYear>)
    ensures r.Some? ==> r.value.id == Some(yearId) && r.value.papers.Some? && |r.value.papers.value| > 0
    ensures r.Some? ==> response.Ok? && response.data.Some?
                        && exists k :: 0 <= k < |response.data.value| && r.value == WithDefaults(response.data.value[k])
    ensures r.None? <==>
              (response.Failed? || response.data.None?
               || forall k :: 0 <= k < |response.data.value| ==> response.data.value[k].id != Some(yearId))
  {
    if response.Failed? || response.data.None? then None
    else
      var years := response.data.value;
      var k := FindIndex(years, (y: JsmuYear) => y.id == Some(yearId));
      if k < 0 then None else Some(WithDefaults(years[k]))
  }

  /** The papers listed: the year's own when it has some, otherwise the defaults. */
  function ShownPapers(y: JsmuYear): (r: seq<Paper>)
    ensures |r| > 0
    ensures y.papers.Some? && |y.papers.value| > 0 ==> r == y.papers.value
  {
    if y.papers.Some? && |y.papers.value| > 0 then y.papers.value else DefaultPapers
  }

  /** What the page keeps is what it lists. */
  lemma ShownPapersOfLoaded(y: JsmuYear)
    ensures ShownPapers(WithDefaults(y)) == WithDefaults(y).papers.value
  {
  }

  /** The add form: empty name, type `mcq`, and the order after the existing papers. */
  function AddForm(y: JsmuYear): (f: PaperForm)
    ensures f.name == "" && f.kind == "mcq"
    ensures f.order == if y.papers.Some? then |y.papers.value| else 0
  {
    PaperForm("", "mcq", if y.papers.Some? then |y.papers.value| else 0)
  }

  /** The edit form: the paper's name, type (`mcq` when missing or empty) and order (0 when missing). */
  function EditForm(p: Paper): (f: PaperForm)
    ensures p.name.Some? ==> f.name == p.name.value
    ensures p.kind.Some? && p.kind.value != "" ==> f.kind == p.kind.value
    ensures p.kind.None? || p.kind.value == "" ==> f.kind == "mcq"
    ensures f.order == if p.order.Some? then p.order.value else 0
  {
    PaperForm(OrDefault(p.name, ""), OrDefault(p.kind, "mcq"), p.order.GetOr(0))
  }

  /** The order input: `parseInt(text, 10) || 0`. */
  function OrderInput(text: string): (n: int)
    ensures ParseInt(text).Some? ==> n == ParseInt(text).value
    ensures ParseInt(text).None? ==> n == 0
  {
    ParseInt(text).GetOr(0)
  }

  /** Typing a count into the order input gives back that count. */
  lemma OrderInputOfNat(n: nat)
    ensures OrderInput(NatToString(n)) == n
  {
    ParseIntOfNatToString(n);
  }

  /** The paper an edit or a delete is aimed at: the same truthy id, or the same name and order. */
  predicate Matches(p: Paper, target: Paper) {
    (HasId(p.id) && p.id == target.id) || (p.name == target.name && p.order == target.order)
  }

  /** `{ ...p, ...form }`: the form's fields over the paper, keeping its id. */
  function Merge(p: Paper, f: PaperForm): (r: Paper)
    ensures r.id == p.id
    ensures r.name == Some(f.name) && r.kind == Some(f.kind) && r.order == Some(f.order)
  {
    Paper(p.id, Some(f.name), Some(f.kind), Some(f.order))
  }

  /** A new paper from the form; it has no id until the server gives it one. */
  function NewPaper(f: PaperForm): (r: Paper)
    ensures r.id.None? && r.name == Some(f.name) && r.kind == Some(f.kind) && r.order == Some(f.order)
  {
    Paper(None, Some(f.name), Some(f.kind), Some(f.order))
  }

  /**
   * The papers `submitPaper` saves: an edit merges the form into the first paper matching
   * the one being edited (nothing changes without a match); an add appends the form.
   */
  function SubmittedPapers(papers: seq<Paper>, editing: Option<Paper>, f: PaperForm): (r: seq<Paper>)
    ensures editing.None? ==> r == papers + [NewPaper(f)]
    ensures editing.Some? ==> |r| == |papers|
    ensures editing.Some? && (forall k :: 0 <= k < |papers| ==> !Matches(papers[k], editing.value)) ==> r == papers
    ensures editing.Some? ==> forall k :: 0 <= k < |papers| ==>
              r[k] == (if k == FindIndex(papers, (x: Paper) => Matches(x, editing.value)) then Merge(papers[k], f) else papers[k])
  {
    if editing.None? then papers + [NewPaper(f)]
    else
      var idx := FindIndex(papers, (x: Paper) => Matches(x, editing.value));
      if idx >= 0 then papers[idx := Merge(papers[idx], f)] else papers
  }

  /** An edit changes at most one paper: the first match, which keeps its id and takes the form. */
  lemma EditChangesFirstMatch(papers: seq<Paper>, editing: Paper, f: PaperForm, k: nat)
    requires k < |papers| && Matches(papers[k], editing)
    requires forall j :: 0 <= j < k ==> !Matches(papers[j], editing)
    ensures SubmittedPapers(papers, Some(editing), f)[k] == Merge(papers[k], f)
    ensures forall j :: 0 <= j < |papers| && j != k ==> SubmittedPapers(papers, Some(editing), f)[j] == papers[j]
  {
    var idx := FindIndex(papers, (x: Paper) => Matches(x, editing));
    assert idx == k;
  }

  /**
   * The delete filter as written: a paper is kept only if its id differs from the
   * target's and it does not share the target's name and order.
   */
  function DeletePapersAsWritten(papers: seq<Paper>, target: Paper): (r: seq<Paper>)
    ensures forall p :: p in r <==> p in papers && p.id != target.id && !(p.name == target.name && p.order == target.order)
  {
    var keep := (p: Paper) => p.id != target.id && !(p.name == target.name && p.order == target.order);
    assert forall p :: p in Filter(papers, keep) <==> p in papers && keep(p) by {
      forall p ensures p in Filter(papers, keep) <==> p in papers && keep(p) {
        FilterMembership(papers, keep, p);
      }
    }
    Filter(papers, keep)
  }

  /**
   * Deleting any default paper as written drops all four, since none has an id and two
   * missing ids compare equal; the page then abandons the delete, so a default paper can
   * never be deleted.
   */
  lemma DeleteDefaultAsWritten(i: nat)
    requires i < 4
    ensures DeletePapersAsWritten(DefaultPapers, DefaultPapers[i]) == []
  {
    var d := DefaultPapers;
    var keep := (p: Paper) => p.id != d[i].id && !(p.name == d[i].name && p.order == d[i].order);
    FilterNone(d, keep);
  }

  /** The delete filter kept to the papers the target matches, by the same rule an edit uses. */
  function DeletePapers(papers: seq<Paper>, target: Paper): (r: seq<Paper>)
    ensures forall p :: p in r <==> p in papers && !Matches(p, target)
    ensures target !in r
  {
    var keep := (p: Paper) => !Matches(p, target);
    assert forall p :: p in Filter(papers, keep) <==> p in papers && keep(p) by {
      forall p ensures p in Filter(papers, keep) <==> p in papers && keep(p) {
        FilterMembership(papers, keep, p);
      }
    }
    Filter(papers, keep)
  }

  /** A paper that does not match the target survives as often as it was there; a match is gone. */
  lemma DeleteCounts(papers: seq<Paper>, target: Paper, p: Paper)
    ensures multiset(DeletePapers(papers, target))[p] == if Matches(p, target) then 0 else multiset(papers)[p]
  {
    FilterCount(papers, (x: Paper) => !Matches(x, target), p);
  }

  /** Deleting one default paper leaves the other three, in their order. */
  lemma DeleteDefault(i: nat)
    requires i < 4
    ensures DeletePapers(DefaultPapers, DefaultPapers[i]) == DefaultPapers[..i] + DefaultPapers[i + 1..]
    ensures |DeletePapers(DefaultPapers, DefaultPapers[i])| == 3
  {
    var d := DefaultPapers;
    var keep := (p: Paper) => !Matches(p, d[i]);
    assert forall k :: 0 <= k < |d| ==> d[k].id.None? && d[k].order == Some(k + 1);
    FilterDropsOne(d, keep, i);
  }

  /** The page's state. */
  class YearDetail {
    const yearId: string
    var year: Option<JsmuYear>
    var loading: bool
    var saving: bool
    var paperModalOpen: bool
    var paperEditing: Option<Paper>
    var paperForm: PaperForm
    var yearEditOpen: bool
    var yearEditName: string
    var deleteTarget: Option<Paper>
    var requests: seq<Request>

    /** The page opened on route `yearId`; only a non-empty id is fetched. */
    constructor (yearId: string)
      ensures this.yearId == yearId && year.None? && loading == (yearId != "")
      ensures !saving && !paperModalOpen && paperEditing.None? && paperForm == PaperForm("", "mcq", 0)
      ensures !yearEditOpen && yearEditName == "" && deleteTarget.None?
      ensures requests == if yearId != "" then [GetJsmu] else []
    {
      this.yearId := yearId;
      year := None;
      loading := yearId != "";
      saving := false;
      paperModalOpen := false;
      paperEditing := None;
      paperForm := PaperForm("", "mcq", 0);
      yearEditOpen := false;
      yearEditName := "";
      deleteTarget := None;
      requests := if yearId != "" then [GetJsmu] else [];
    }

    /** The year view (rather than loading or not found) is on screen. */
    predicate YearShown()
      reads this
    {
      !loading && year.Some?
    }

    /** The Add/Save button's `disabled`. */
    predicate SubmitDisabled()
      reads this
    {
      saving || IsBlank(paperForm.name)
    }

    /** A fetch of the year settled with `response`; the first one also ends loading. */
    method Loaded(response: Outcome<Option<seq<JsmuYear>>>)
      modifies this
      ensures year == FindYear(response, yearId) && !loading
      ensures saving == old(saving) && paperModalOpen == old(paperModalOpen) && paperEditing == old(paperEditing)
      ensures paperForm == old(paperForm) && yearEditOpen == old(yearEditOpen) && yearEditName == old(yearEditName)
      ensures deleteTarget == old(deleteTarget) && requests == old(requests)
    {
      year := FindYear(response, yearId);
      loading := false;
    }

    /**
     * `saveYear(body)`, with `outcome` the update's result: nothing happens for a year
     * without an id; otherwise the body is sent and a success re-fetches the year (not
     * awaited, so the fetch's arrival is a later `Loaded`). `saving` ends false.
     */
    method SaveYear(body: YearBody, outcome: Outcome<()>)
      modifies this
      ensures old(year).None? || !HasId(old(year).value.id) ==> requests == old(requests)
      ensures old(year).Some? && HasId(old(year).value.id) ==>
                requests == old(requests) + [PutYear(old(year).value.id.value, body)] + (if outcome.Ok? then [GetJsmu] else [])
      ensures saving == (old(saving) && (old(year).None? || !HasId(old(year).value.id)))
      ensures year == old(year) && loading == old(loading) && paperModalOpen == old(paperModalOpen)
      ensures paperEditing == old(paperEditing) && paperForm == old(paperForm)
      ensures yearEditOpen == old(yearEditOpen) && yearEditName == old(yearEditName) && deleteTarget == old(deleteTarget)
    {
      if year.None? || !HasId(year.value.id) {
        return;
      }
      saving := true;
      requests := requests + [PutYear(year.value.id.value, body)];
      if outcome.Ok? {
        requests := requests + [GetJsmu];
      }
      saving := false;
    }

    /** `openAddPaper`. */
    method OpenAddPaper()
      requires YearShown()
      modifies this
      ensures paperModalOpen && paperEditing.None? && paperForm == AddForm(old(year).value)
      ensures year == old(year) && loading == old(loading) && saving == old(saving)
      ensures yearEditOpen == old(yearEditOpen) && yearEditName == old(yearEditName)
      ensures deleteTarget == old(deleteTarget) && requests == old(requests)
    {
      paperEditing := None;
      paperForm := AddForm(year.value);
      paperModalOpen := true;
    }

    /** `openEditPaper(p)`. */
    method OpenEditPaper(p: Paper)
      requires YearShown()
      modifies this
      ensures paperModalOpen && paperEditing == Some(p) && paperForm == EditForm(p)
      ensures year == old(year) && loading == old(loading) && saving == old(saving)
      ensures yearEditOpen == old(yearEditOpen) && yearEditName == old(yearEditName)
      ensures deleteTarget == old(deleteTarget) && requests == old(requests)
    {
      paperEditing := Some(p);
      paperForm := EditForm(p);
      paperModalOpen := true;
    }

    /** Typing into the order input. */
    method SetOrder(text: string)
      modifies this
      ensures paperForm == old(paperForm).(order := OrderInput(text))
      ensures year == old(year) && loading == old(loading) && saving == old(saving)
      ensures paperModalOpen == old(paperModalOpen) && paperEditing == old(paperEditing)
      ensures yearEditOpen == old(yearEditOpen) && yearEditName == old(yearEditName)
      ensures deleteTarget == old(deleteTarget) && requests == old(requests)
    {
      paperForm := paperForm.(order := OrderInput(text));
    }

    /**
     * `submitPaper`, from the enabled button of the modal: the papers are copied, the
     * edited paper merged in place (or the form appended), the year saved with them, and
     * the modal closed whatever the outcome.
     */
    method SubmitPaper(outcome: Outcome<()>)
      requires YearShown() && !SubmitDisabled()
      modifies this
      ensures var id := old(year).value.id;
              var body := YearBody(old(year).value.name,
                                   Some(SubmittedPapers(old(year).value.papers.GetOr([]), old(paperEditing), old(paperForm))));
              (!HasId(id) ==> requests == old(requests))
              && (HasId(id) ==> requests == old(requests) + [PutYear(id.value, body)] + (if outcome.Ok? then [GetJsmu] else []))
      ensures !paperModalOpen && !saving
      ensures year == old(year) && loading == old(loading) && paperEditing == old(paperEditing) && paperForm == old(paperForm)
      ensures yearEditOpen == old(yearEditOpen) && yearEditName == old(yearEditName) && deleteTarget == old(deleteTarget)
    {
      var papers := year.value.papers.GetOr([]);
      if paperEditing.Some? {
        var target := paperEditing.value;
        var idx := FindIndex(papers, (x: Paper) => Matches(x, target));
        if idx >= 0 {
          papers := papers[idx := Merge(papers[idx], paperForm)];
        }
      } else {
        papers := papers + [NewPaper(paperForm)];
      }
      SaveYear(YearBody(year.value.name, Some(papers)), outcome);
      paperModalOpen := false;
    }

    /** `openEditYear`. */
    method OpenEditYear()
      requires YearShown()
      modifies this
      ensures yearEditOpen && yearEditName == OrDefault(old(year).value.name, "")
      ensures year == old(year) && loading == old(loading) && saving == old(saving)
      ensures paperModalOpen == old(paperModalOpen) && paperEditing == old(paperEditing) && paperForm == old(paperForm)
      ensures deleteTarget == old(deleteTarget) && requests == old(requests)
    {
      yearEditName := OrDefault(year.value.name, "");
      yearEditOpen := true;
    }

    /** `submitYearName`: the year is saved under the typed name with its papers, and the modal closes. */
    method SubmitYearName(outcome: Outcome<()>)
      requires YearShown()
      modifies this
      ensures var id := old(year).value.id;
              var body := YearBody(Some(old(yearEditName)), old(year).value.papers);
              (!HasId(id) ==> requests == old(requests))
              && (HasId(id) ==> requests == old(requests) + [PutYear(id.value, body)] + (if outcome.Ok? then [GetJsmu] else []))
      ensures !yearEditOpen && saving == (old(saving) && !HasId(old(year).value.id))
      ensures year == old(year) && loading == old(loading) && yearEditName == old(yearEditName)
      ensures paperModalOpen == old(paperModalOpen) && paperEditing == old(paperEditing) && paperForm == old(paperForm)
      ensures deleteTarget == old(deleteTarget)
    {
      SaveYear(YearBody(Some(yearEditName), year.value.papers), outcome);
      yearEditOpen := false;
    }

    /** Clicking a paper's delete button asks for confirmation. */
    method AskDelete(p: Paper)
      requires YearShown()
      modifies this
      ensures deleteTarget == Some(p)
      ensures year == old(year) && loading == old(loading) && saving == old(saving)
      ensures paperModalOpen == old(paperModalOpen) && paperEditing == old(paperEditing) && paperForm == old(paperForm)
      ensures yearEditOpen == old(yearEditOpen) && yearEditName == old(yearEditName) && requests == old(requests)
    {
      deleteTarget := Some(p);
    }

    /**
     * The dialog's Delete button: `confirmDeletePaper`, with the corrected filter, runs and
     * the dialog closes at once (`onClose` clears the target whatever the handler does).
     * Nothing is sent without a target or papers, or when no paper would remain; otherwise
     * the year is saved with the rest of its papers.
     */
    method ConfirmDelete(outcome: Outcome<()>)
      requires YearShown()
      modifies this
      ensures deleteTarget.None?
      ensures old(deleteTarget).None? || old(year).value.papers.None?
              || |DeletePapers(old(year).value.papers.value, old(deleteTarget).value)| == 0 ==>
                requests == old(requests) && saving == old(saving)
      ensures old(deleteTarget).Some? && old(year).value.papers.Some?
              && |DeletePapers(old(year).value.papers.value, old(deleteTarget).value)| > 0 ==>
                var id := old(year).value.id;
                var body := YearBody(old(year).value.name, Some(DeletePapers(old(year).value.papers.value, old(deleteTarget).value)));
                (!HasId(id) ==> requests == old(requests))
                && (HasId(id) ==> requests == old(requests) + [PutYear(id.value, body)] + (if outcome.Ok? then [GetJsmu] else []))
      ensures year == old(year) && loading == old(loading)
      ensures paperModalOpen == old(paperModalOpen) && paperEditing == old(paperEditing) && paperForm == old(paperForm)
      ensures yearEditOpen == old(yearEditOpen) && yearEditName == old(yearEditName)
    {
      if deleteTarget.Some? && year.value.papers.Some? {
        var papers := DeletePapers(year.value.papers.value, deleteTarget.value);
        if |papers| > 0 {
          SaveYear(YearBody(year.value.name, Some(papers)), outcome);
        }
      }
      deleteTarget := None;
    }
  }
}
