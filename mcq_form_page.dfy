/**
 * The full-page MCQ editor under a topic: `mcqId` of `new` (or none) creates, any other
 * id edits. Edit mode fills the fields from the fetched MCQ; saving validates, sends the
 * payload and leaves the page.
 */
module McqFormPage {
  import opened Wrappers
  import opened Strings
  import opened Seqs
  import opened Mcq

  /** `mcqId && mcqId !== 'new'`. */
  predicate IsEdit(mcqId: Option<string>) {
    mcqId.Some? && mcqId.value != "" && mcqId.value != "new"
  }

  /** A response: its data, or an error with the HTTP status when there was one. */
  datatype Http<+T> = Done(data: T) | HttpError(status: Option<int>)

  /** The editable fields. */
  datatype Fields = Fields(
    question: string,
    options: seq<string>,
    correctIndex: int,
    explanation: string,
    videoUrl: string,
    kind: string,
    imageUrl: string)

  /** A new form's fields. */
  const NewFields: Fields := Fields("", BlankOptions, 0, "", "", TextKind, "")

  /** The fields filled from the fetched MCQ in edit mode. */
  function EditFields(data: RawMcq): Fields {
    Fields(OrDefault(data.question, ""), OptionsOrBlank(data.options), data.correctIndex.GetOr(0),
           OrDefault(data.explanation, ""), OrDefault(data.videoUrl, ""), OrDefault(data.kind, TextKind), OrDefault(data.imageUrl, ""))
  }

  /**
   * Missing fields take their defaults: four empty options for a missing or empty list,
   * correctIndex 0, type `text` (also for an empty type), and empty strings elsewhere.
   */
  lemma EditFieldsDefaults(data: RawMcq)
    ensures var f := EditFields(data);
            (data.options.None? || data.options.value == [] ==> f.options == ["", "", "", ""])
            && (data.options.Some? && data.options.value != [] ==> f.options == data.options.value)
            && f.correctIndex == (if data.correctIndex.Some? then data.correctIndex.value else 0)
            && (data.kind.None? || data.kind.value == "" ==> f.kind == "text")
            && (data.kind.Some? && data.kind.value != "" ==> f.kind == data.kind.value)
            && (data.question.None? ==> f.question == "")
  {
  }

  /**
   * The browser's checks before `onSubmit` runs: the `required` question text is non-empty,
   * and the `type="url"` video link is empty or, by `validUrl`, a valid absolute URL.
   */
  predicate PassesConstraints(f: Fields, validUrl: string -> bool) {
    f.question != "" && (f.videoUrl == "" || validUrl(f.videoUrl))
  }

  /** `videoUrl.trim() || undefined`. */
  function VideoField(videoUrl: string): (r: Option<string>)
    ensures r.None? <==> IsBlank(videoUrl)
    ensures r.Some? ==> r.value == Trim(videoUrl)
  {
    if Trim(videoUrl) == [] then None else Some(Trim(videoUrl))
  }

  /** The payload sent for accepted fields. */
  function Payload(f: Fields, options: seq<string>, correctIndex: int): McqPayload {
    McqPayload(f.question, options, correctIndex, f.explanation, VideoField(f.videoUrl), f.kind,
               ImageField(f.kind, f.imageUrl), None)
  }

  /**
   * The payload carries the filtered options, a trimmed video link that is absent when
   * blank, an image only for image MCQs, and no order.
   */
  lemma PayloadSpec(f: Fields)
    requires Validate(f.options, f.correctIndex).Accept?
    ensures var v := Validate(f.options, f.correctIndex);
            var p := Payload(f, v.options, v.correctIndex);
            p.options == NonEmpty(f.options)
            && (forall k :: 0 <= k < |p.options| ==> p.options[k] != "")
            && (p.videoUrl.None? <==> IsBlank(f.videoUrl))
            && (p.videoUrl.Some? ==> p.videoUrl.value == Trim(f.videoUrl))
            && (p.imageUrl.Some? <==> f.kind == "image")
            && 0 <= p.correctIndex < |p.options|
            && p.options[p.correctIndex] == f.options[f.correctIndex]
            && p.order.None?
  {
    ValidateKeepsAnswer(f.options, f.correctIndex);
  }

  /** The page's state. */
  class Editor {
    const mcqId: Option<string>
    const topicId: string
    var fields: Fields
    var loading: bool
    var notFound: bool
    var topicFound: bool
    var saving: bool
    var navigated: bool
    var alerts: seq<string>
    var requests: seq<SaveRequest>

    /** The page opened on a route; only edit mode starts loading. */
    constructor (topicId: string, mcqId: Option<string>)
      ensures this.topicId == topicId && this.mcqId == mcqId
      ensures fields == NewFields && loading == IsEdit(mcqId)
      ensures !notFound && !topicFound && !saving && !navigated && alerts == [] && requests == []
    {
      this.topicId := topicId;
      this.mcqId := mcqId;
      fields := NewFields;
      loading := IsEdit(mcqId);
      notFound := false;
      topicFound := false;
      saving := false;
      navigated := false;
      alerts := [];
      requests := [];
    }

    /**
     * The load effect settled: `meta` says whether the route's topic was found, `mcq` is the
     * edit-mode fetch. A 404 from either marks the page not found; the fields change only
     * when the MCQ arrived in edit mode.
     */
    method Loaded(meta: Http<bool>, mcq: Http<RawMcq>)
      modifies this
      ensures !loading
      ensures meta.HttpError? ==>
                notFound == (old(notFound) || meta.status == Some(404))
                && topicFound == old(topicFound) && fields == old(fields)
      ensures meta.Done? ==> topicFound == meta.data
      ensures meta.Done? && IsEdit(mcqId) && mcq.Done? ==> fields == EditFields(mcq.data) && notFound == old(notFound)
      ensures meta.Done? && IsEdit(mcqId) && mcq.HttpError? ==>
                fields == old(fields) && notFound == (old(notFound) || mcq.status == Some(404))
      ensures meta.Done? && !IsEdit(mcqId) ==> fields == old(fields) && notFound == old(notFound)
      ensures saving == old(saving) && navigated == old(navigated)
      ensures alerts == old(alerts) && requests == old(requests)
    {
      if meta.HttpError? {
        if meta.status == Some(404) {
          notFound := true;
        }
      } else {
        topicFound := meta.data;
        if IsEdit(mcqId) {
          if mcq.Done? {
            fields := EditFields(mcq.data);
          } else if mcq.status == Some(404) {
            notFound := true;
          }
        }
      }
      loading := false;
    }

    /** Option input `i` of the four. */
    method SetOption(i: nat, value: string)
      requires i < 4
      modifies this
      ensures fields == old(fields).(options := SetSlot(old(fields.options), i, value))
      ensures loading == old(loading) && notFound == old(notFound) && topicFound == old(topicFound)
      ensures saving == old(saving) && navigated == old(navigated)
      ensures alerts == old(alerts) && requests == old(requests)
    {
      var n := fields.options;
      n := SetSlot(n, i, value);
      fields := fields.(options := n);
    }

    /** The correct-option radio `i`. */
    method SetCorrectIndex(i: nat)
      requires i < 4
      modifies this
      ensures fields == old(fields).(correctIndex := i)
      ensures loading == old(loading) && notFound == old(notFound) && topicFound == old(topicFound)
      ensures saving == old(saving) && navigated == old(navigated)
      ensures alerts == old(alerts) && requests == old(requests)
    {
      fields := fields.(correctIndex := i);
    }

    /**
     * The form's submit, with `outcome` the save request's result and `validUrl` the
     * browser's test of an absolute URL: while the browser's checks fail (see
     * `PassesConstraints`) it stops the submit and nothing happens; otherwise `handleSubmit`
     * runs with the corrected validation: a rejected submit alerts and sends nothing; an
     * accepted one sends an update in edit mode and a create otherwise. Success navigates
     * away; only a failure resets `saving`.
     */
    method Submit(outcome: Outcome<()>, validUrl: string -> bool)
      modifies this
      ensures !PassesConstraints(old(fields), validUrl) ==>
                alerts == old(alerts) && requests == old(requests) && saving == old(saving) && navigated == old(navigated)
      ensures PassesConstraints(old(fields), validUrl) ==>
                var v := Validate(old(fields).options, old(fields).correctIndex);
                (v.TooFewOptions? ==>
                   alerts == old(alerts) + ["At least 2 options required"]
                   && requests == old(requests) && saving == old(saving) && navigated == old(navigated))
                && (v.BadCorrectIndex? ==>
                      alerts == old(alerts) + ["Select the correct option"]
                      && requests == old(requests) && saving == old(saving) && navigated == old(navigated))
                && (v.Accept? ==>
                      var body := Payload(old(fields), v.options, v.correctIndex);
                      alerts == old(alerts)
                      && requests == old(requests) + [if IsEdit(mcqId) then PutMcq(topicId, mcqId.value, body) else PostMcq(topicId, body)]
                      && navigated == (old(navigated) || outcome.Ok?)
                      && saving == outcome.Ok?)
      ensures fields == old(fields) && loading == old(loading)
      ensures notFound == old(notFound) && topicFound == old(topicFound)
    {
      if !PassesConstraints(fields, validUrl) {
        return;
      }
      var v := Validate(fields.options, fields.correctIndex);
      if v.TooFewOptions? {
        alerts := alerts + ["At least 2 options required"];
        return;
      }
      if v.BadCorrectIndex? {
        alerts := alerts + ["Select the correct option"];
        return;
      }
      saving := true;
      var body := Payload(fields, v.options, v.correctIndex);
      requests := requests + [if IsEdit(mcqId) then PutMcq(topicId, mcqId.value, body) else PostMcq(topicId, body)];
      if outcome.Ok? {
        navigated := true;
      } else {
        saving := false;
      }
    }
  }
}
