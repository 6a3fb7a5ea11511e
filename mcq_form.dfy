/**
 * The modal MCQ editor of the admin tree: it opens on an existing MCQ or on nothing, and
 * saving validates, sends the payload and, on success, notifies the caller and closes.
 */
module McqForm {
  import opened Wrappers
  import opened Seqs
  import opened Mcq

  /** The editable fields. */
  datatype Fields = Fields(
    question: string,
    options: seq<string>,
    correctIndex: int,
    explanation: string,
    videoUrl: string,
    kind: string,
    imageUrl: string)

  /** The initial fields: `??` defaults, so an empty string from the MCQ is kept. */
  function InitialFields(mcq: Option<RawMcq>): Fields {
    if mcq.None? then Fields("", BlankOptions, 0, "", "", TextKind, "")
    else
      var m := mcq.value;
      Fields(m.question.GetOr(""), OptionsOrBlank(m.options), m.correctIndex.GetOr(0),
             m.explanation.GetOr(""), m.videoUrl.GetOr(""), m.kind.GetOr(TextKind), m.imageUrl.GetOr(""))
  }

  /**
   * The options are the MCQ's own when it has some, otherwise four empty strings;
   * correctIndex defaults to 0 and the type to `text` only when missing.
   */
  lemma InitialFieldsDefaults(mcq: Option<RawMcq>)
    ensures var f := InitialFields(mcq);
            (mcq.Some? && mcq.value.options.Some? && |mcq.value.options.value| > 0 ==> f.options == mcq.value.options.value)
            && (mcq.None? || mcq.value.options.None? || mcq.value.options.value == [] ==> f.options == ["", "", "", ""])
            && f.correctIndex == (if mcq.Some? && mcq.value.correctIndex.Some? then mcq.value.correctIndex.value else 0)
            && f.kind == (if mcq.Some? && mcq.value.kind.Some? then mcq.value.kind.value else "text")
  {
  }

  /** The order the payload carries: the MCQ's own, or 0. */
  function OrderOf(mcq: Option<RawMcq>): (r: int)
    ensures mcq.Some? && mcq.value.order.Some? ==> r == mcq.value.order.value
    ensures mcq.None? || mcq.value.order.None? ==> r == 0
  {
    if mcq.Some? then mcq.value.order.GetOr(0) else 0
  }

  /** The payload sent for accepted fields: the video link is sent as typed. */
  function Payload(f: Fields, options: seq<string>, correctIndex: int, order: int): McqPayload {
    McqPayload(f.question, options, correctIndex, f.explanation, Some(f.videoUrl), f.kind,
               ImageField(f.kind, f.imageUrl), Some(order))
  }

  /**
   * An accepted payload carries the filtered options with the marked answer at the index
   * sent, the video link untrimmed, an image only for image MCQs, and the MCQ's order or 0.
   */
  lemma PayloadSpec(f: Fields, mcq: Option<RawMcq>)
    requires Validate(f.options, f.correctIndex).Accept?
    ensures var v := Validate(f.options, f.correctIndex);
            var p := Payload(f, v.options, v.correctIndex, OrderOf(mcq));
            p.options == NonEmpty(f.options)
            && 0 <= p.correctIndex < |p.options|
            && p.options[p.correctIndex] == f.options[f.correctIndex]
            && p.videoUrl == Some(f.videoUrl)
            && (p.imageUrl.Some? <==> f.kind == "image")
            && p.order == Some(if mcq.Some? && mcq.value.order.Some? then mcq.value.order.value else 0)
  {
    ValidateKeepsAnswer(f.options, f.correctIndex);
  }

  /** The editor's state; `saved` and `closed` record that `onSave` and `onClose` ran. */
  class Form {
    const topicId: string
    const mcq: Option<RawMcq>
    var fields: Fields
    var saving: bool
    var saved: bool
    var closed: bool
    var alerts: seq<string>
    var requests: seq<SaveRequest>

    constructor (topicId: string, mcq: Option<RawMcq>)
      ensures this.topicId == topicId && this.mcq == mcq
      ensures fields == InitialFields(mcq)
      ensures !saving && !saved && !closed && alerts == [] && requests == []
    {
      this.topicId := topicId;
      this.mcq := mcq;
      fields := InitialFields(mcq);
      saving := false;
      saved := false;
      closed := false;
      alerts := [];
      requests := [];
    }

    /** `mcq?._id` is truthy. */
    predicate IsEdit()
      reads this
    {
      mcq.Some? && mcq.value.id.Some? && mcq.value.id.value != ""
    }

    /** Option input `i` of the four. */
    method SetOption(i: nat, value: string)
      requires i < 4
      modifies this
      ensures fields == old(fields).(options := SetSlot(old(fields.options), i, value))
      ensures saving == old(saving) && saved == old(saved) && closed == old(closed)
      ensures alerts == old(alerts) && requests == old(requests)
    {
      var n := fields.options;
      n := SetSlot(n, i, value);
      fields := fields.(options := n);
    }

    /** The correct-option radio `i`. */
    method SetCorrectIndex(i: nat)
      requires i < 4
      modifies this
      ensures fields == old(fields).(correctIndex := i)
      ensures saving == old(saving) && saved == old(saved) && closed == old(closed)
      ensures alerts == old(alerts) && requests == old(requests)
    {
      fields := fields.(correctIndex := i);
    }

    /**
     * The form's submit, with `outcome` the save request's result: while the `required`
     * question text is empty the browser stops it and nothing happens; otherwise
     * `handleSubmit` runs with the corrected validation: a rejected submit alerts and sends nothing; an accepted one sends an update when the
     * MCQ has an id and a create otherwise; `onSave` and `onClose` run only on success and
     * `saving` ends false either way.
     */
    method Submit(outcome: Outcome<()>)
      modifies this
      ensures old(fields).question == "" ==>
                alerts == old(alerts) && requests == old(requests) && saved == old(saved) && closed == old(closed) && saving == old(saving)
      ensures old(fields).question != "" ==>
                var v := Validate(old(fields).options, old(fields).correctIndex);
                (v.TooFewOptions? ==>
                   alerts == old(alerts) + ["At least 2 options required"]
                   && requests == old(requests) && saved == old(saved) && closed == old(closed) && saving == old(saving))
                && (v.BadCorrectIndex? ==>
                      alerts == old(alerts) + ["Select correct option"]
                      && requests == old(requests) && saved == old(saved) && closed == old(closed) && saving == old(saving))
                && (v.Accept? ==>
                      var body := Payload(old(fields), v.options, v.correctIndex, OrderOf(mcq));
                      alerts == old(alerts)
                      && requests == old(requests) + [if IsEdit() then PutMcq(topicId, mcq.value.id.value, body) else PostMcq(topicId, body)]
                      && saved == (old(saved) || outcome.Ok?) && closed == (old(closed) || outcome.Ok?)
                      && !saving)
      ensures fields == old(fields)
    {
      if fields.question == "" {
        return;
      }
      var v := Validate(fields.options, fields.correctIndex);
      if v.TooFewOptions? {
        alerts := alerts + ["At least 2 options required"];
        return;
      }
      if v.BadCorrectIndex? {
        alerts := alerts + ["Select correct option"];
        return;
      }
      saving := true;
      var body := Payload(fields, v.options, v.correctIndex, OrderOf(mcq));
      requests := requests + [if IsEdit() then PutMcq(topicId, mcq.value.id.value, body) else PostMcq(topicId, body)];
      if outcome.Ok? {
        saved := true;
        closed := true;
      }
      saving := false;
    }
  }
}
