/**
 * The modal OSPE form of the admin tree: a flat list of questions, each with its own
 * image. Picture MCQs carry options and a correct index, viva questions an expected answer.
 */
module OspeForm {
  import opened Wrappers
  import opened Strings
  import opened Seqs
  import opened Ospe

  /** A question as the form holds it; the text stays missing until it is typed. */
  datatype Question = Question(
    questionText: Option<string>,
    imageUrl: string,
    kind: string,
    options: seq<string>,
    correctIndex: int,
    expectedAnswer: string)

  /** The question `addQuestion` appends and a new form starts with. */
  const BlankQuestion: Question := Question(Some(""), "", PictureMcq, ["", "", "", ""], 0, "")

  /** An existing question mapped into the form: type defaults to picture_mcq, options are padded. */
  function LoadQuestion(q: RawQuestion): (r: Question)
    ensures r.questionText == q.questionText
    ensures r.imageUrl == q.imageUrl.GetOr("")
    ensures r.kind == OrDefault(q.kind, PictureMcq)
    ensures r.options == PadOptions(q.options)
    ensures r.correctIndex == q.correctIndex.GetOr(0)
    ensures r.expectedAnswer == q.expectedAnswer.GetOr("")
  {
    Question(q.questionText, q.imageUrl.GetOr(""), OrDefault(q.kind, PictureMcq), PadOptions(q.options),
             q.correctIndex.GetOr(0), q.expectedAnswer.GetOr(""))
  }

  /** The initial questions: the OSPE's own when it has some, else one blank question. */
  function InitialQuestions(ospe: Option<RawOspe>): seq<Question> {
    var qs := if ospe.Some? then ospe.value.questions.GetOr([]) else [];
    if |qs| > 0 then seq(|qs|, k requires 0 <= k < |qs| => LoadQuestion(qs[k]))
    else [BlankQuestion]
  }

  /**
   * An OSPE with questions is mapped one to one, with options of three or four slots that
   * keep the original prefix; anything else starts with exactly one blank picture MCQ.
   */
  lemma InitialQuestionsSpec(ospe: Option<RawOspe>)
    ensures var qs := if ospe.Some? then ospe.value.questions.GetOr([]) else [];
            var r := InitialQuestions(ospe);
            (|qs| > 0 ==> |r| == |qs| && forall k :: 0 <= k < |r| ==>
                             r[k].kind == OrDefault(qs[k].kind, PictureMcq)
                             && r[k].correctIndex == qs[k].correctIndex.GetOr(0)
                             && 3 <= |r[k].options| <= 4
                             && forall j :: 0 <= j < |r[k].options| ==>
                                  r[k].options[j] == if j < |qs[k].options.GetOr([])| then qs[k].options.value[j] else "")
            && (|qs| == 0 ==> r == [BlankQuestion] && r[0].kind == PictureMcq && r[0].options == ["", "", "", ""])
  {
    var qs := if ospe.Some? then ospe.value.questions.GetOr([]) else [];
    var r := InitialQuestions(ospe);
    if |qs| > 0 {
      forall k | 0 <= k < |qs|
        ensures r[k].kind == OrDefault(qs[k].kind, PictureMcq)
        ensures r[k].correctIndex == qs[k].correctIndex.GetOr(0)
        ensures 3 <= |r[k].options| <= 4
        ensures forall j :: 0 <= j < |r[k].options| ==>
                  r[k].options[j] == if j < |qs[k].options.GetOr([])| then qs[k].options.value[j] else ""
      {
        assert r[k] == LoadQuestion(qs[k]);
        PadOptionsLength(qs[k].options);
      }
    }
  }

  /** Every question has three or four option slots, so each of the four inputs can be written. */
  predicate OptionSlots(questions: seq<Question>) {
    forall k :: 0 <= k < |questions| ==> 3 <= |questions[k].options| <= 4
  }

  lemma InitialQuestionsSlots(ospe: Option<RawOspe>)
    ensures OptionSlots(InitialQuestions(ospe))
  {
    InitialQuestionsSpec(ospe);
  }

  /** A field `updateQuestion` sets from an input. */
  datatype QuestionField =
    | SetText(text: string)
    | SetKind(kind: string)
    | SetCorrectIndex(index: int)
    | SetExpectedAnswer(answer: string)

  function WithField(q: Question, f: QuestionField): Question {
    match f
    case SetText(t) => q.(questionText := Some(t))
    case SetKind(k) => q.(kind := k)
    case SetCorrectIndex(i) => q.(correctIndex := i)
    case SetExpectedAnswer(a) => q.(expectedAnswer := a)
  }

  /** `updateQuestion(i, field, value)`: only question `i` changes, and only the named field. */
  function UpdateQuestion(questions: seq<Question>, i: nat, f: QuestionField): (r: seq<Question>)
    requires i < |questions|
    ensures |r| == |questions|
    ensures forall k :: 0 <= k < |r| && k != i ==> r[k] == questions[k]
    ensures r[i].imageUrl == questions[i].imageUrl && r[i].options == questions[i].options
    ensures f.SetText? ==> r[i].questionText == Some(f.text)
    ensures !f.SetText? ==> r[i].questionText == questions[i].questionText
    ensures f.SetKind? ==> r[i].kind == f.kind
    ensures !f.SetKind? ==> r[i].kind == questions[i].kind
    ensures f.SetCorrectIndex? ==> r[i].correctIndex == f.index
    ensures !f.SetCorrectIndex? ==> r[i].correctIndex == questions[i].correctIndex
    ensures f.SetExpectedAnswer? ==> r[i].expectedAnswer == f.answer
    ensures !f.SetExpectedAnswer? ==> r[i].expectedAnswer == questions[i].expectedAnswer
  {
    questions[i := WithField(questions[i], f)]
  }

  /**
   * `updateOption(qi, oi, value)`: only option `oi` of question `qi` changes (a three-slot
   * list grows by the fourth slot); the list is not padded first.
   */
  function UpdateOption(questions: seq<Question>, qi: nat, oi: nat, value: string): (r: seq<Question>)
    requires qi < |questions| && oi <= |questions[qi].options|
    ensures |r| == |questions|
    ensures forall k :: 0 <= k < |r| && k != qi ==> r[k] == questions[k]
    ensures r[qi] == questions[qi].(options := Assign(questions[qi].options, oi, value))
  {
    questions[qi := questions[qi].(options := Assign(questions[qi].options, oi, value))]
  }

  /** Writing one of the four option inputs keeps every list at three or four slots. */
  lemma UpdateOptionSlots(questions: seq<Question>, qi: nat, oi: nat, value: string)
    requires OptionSlots(questions) && qi < |questions| && oi < 4
    ensures OptionSlots(UpdateOption(questions, qi, oi, value))
  {
    var r := UpdateOption(questions, qi, oi, value);
    assert |r[qi].options| == if oi < |questions[qi].options| then |questions[qi].options| else |questions[qi].options| + 1;
  }

  /** A question as it is sent: `None` is a field left `undefined`. */
  datatype QuestionPayload = QuestionPayload(
    questionText: Option<string>,
    imageUrl: Option<string>,
    kind: string,
    options: Option<seq<string>>,
    correctIndex: Option<int>,
    expectedAnswer: Option<string>,
    order: int)

  datatype SavePayload = SavePayload(name: string, questions: seq<QuestionPayload>)

  function QuestionPayloadOf(q: Question, order: int): QuestionPayload {
    QuestionPayload(
      q.questionText,
      if q.imageUrl == "" then None else Some(q.imageUrl),
      q.kind,
      if q.kind == PictureMcq then Some(NonEmpty(q.options)) else None,
      if q.kind == PictureMcq then Some(q.correctIndex) else None,
      if q.kind == VivaWritten then Some(q.expectedAnswer) else None,
      order)
  }

  /**
   * The browser's check of the `required` inputs before `onSubmit` runs: the name and every
   * question's text are non-empty; a text still missing leaves its input empty.
   */
  predicate RequiredFilled(name: string, questions: seq<Question>) {
    name != ""
    && forall k :: 0 <= k < |questions| ==> questions[k].questionText.Some? && questions[k].questionText.value != ""
  }

  /** `handleSubmit`'s payload. */
  function Payload(name: string, questions: seq<Question>): SavePayload {
    SavePayload(name, seq(|questions|, k requires 0 <= k < |questions| => QuestionPayloadOf(questions[k], k)))
  }

  /**
   * The payload keeps every question in place with its position as `order`; an empty image
   * becomes absent; only picture MCQs carry options (the non-empty ones) and correctIndex,
   * only viva questions carry expectedAnswer, and any other type carries none of the three.
   */
  lemma PayloadSpec(name: string, questions: seq<Question>)
    ensures var p := Payload(name, questions);
            p.name == name && |p.questions| == |questions|
            && forall k :: 0 <= k < |questions| ==>
                 var pq := p.questions[k];
                 var q := questions[k];
                 pq.order == k && pq.kind == q.kind && pq.questionText == q.questionText
                 && (pq.imageUrl.None? <==> q.imageUrl == "")
                 && (pq.imageUrl.Some? ==> pq.imageUrl.value == q.imageUrl)
                 && (pq.options.Some? <==> q.kind == PictureMcq)
                 && (pq.correctIndex.Some? <==> q.kind == PictureMcq)
                 && (pq.expectedAnswer.Some? <==> q.kind == VivaWritten)
                 && (q.kind == PictureMcq ==> pq.options.value == NonEmpty(q.options)
                                              && pq.correctIndex.value == q.correctIndex)
                 && (q.kind == VivaWritten ==> pq.expectedAnswer.value == q.expectedAnswer)
  {
  }

  /** The save request: an update of the existing OSPE, or a create under the module. */
  datatype SaveRequest = PutOspe(ospeId: string, body: SavePayload) | PostOspe(moduleId: string, body: SavePayload)

  /** The form's state; `saved` and `closed` record that `onSave` and `onClose` ran. */
  class Form {
    var name: string
    var questions: seq<Question>
    var saving: bool
    var saved: bool
    var closed: bool
    var requests: seq<SaveRequest>
    const ospe: Option<RawOspe>
    const moduleId: string

    predicate Valid()
      reads this
    {
      OptionSlots(questions)
    }

    /** The form opened on `ospe` (absent when adding). */
    constructor (moduleId: string, ospe: Option<RawOspe>)
      ensures Valid()
      ensures name == (if ospe.Some? then ospe.value.name.GetOr("") else "")
      ensures questions == InitialQuestions(ospe)
      ensures !saving && !saved && !closed && requests == []
      ensures this.ospe == ospe && this.moduleId == moduleId
    {
      name := if ospe.Some? then ospe.value.name.GetOr("") else "";
      questions := InitialQuestions(ospe);
      saving := false;
      saved := false;
      closed := false;
      requests := [];
      this.ospe := ospe;
      this.moduleId := moduleId;
      new;
      InitialQuestionsSlots(ospe);
    }

    /** `ospe?._id` is truthy. */
    predicate IsEdit()
      reads this
    {
      ospe.Some? && ospe.value.id != ""
    }

    /** `addQuestion`: one blank question at the end. */
    method AddQuestion()
      requires Valid()
      modifies this
      ensures Valid()
      ensures questions == old(questions) + [BlankQuestion]
      ensures name == old(name) && saving == old(saving) && saved == old(saved)
      ensures closed == old(closed) && requests == old(requests)
    {
      questions := questions + [BlankQuestion];
    }

    /** `removeQuestion(i)`: exactly question `i` goes, the others keep their order. */
    method RemoveQuestion(i: int)
      requires Valid()
      modifies this
      ensures Valid()
      ensures questions == RemoveIndex(old(questions), i)
      ensures name == old(name) && saving == old(saving) && saved == old(saved)
      ensures closed == old(closed) && requests == old(requests)
    {
      questions := RemoveIndex(questions, i);
    }

    /** `updateQuestion(i, field, value)` from one of question `i`'s inputs. */
    method SetField(i: nat, f: QuestionField)
      requires Valid() && i < |questions|
      modifies this
      ensures Valid()
      ensures questions == UpdateQuestion(old(questions), i, f)
      ensures name == old(name) && saving == old(saving) && saved == old(saved)
      ensures closed == old(closed) && requests == old(requests)
    {
      var n := questions;
      n := n[i := WithField(n[i], f)];
      questions := n;
    }

    /** `updateOption(qi, oi, value)` from one of the four option inputs. */
    method SetOption(qi: nat, oi: nat, value: string)
      requires Valid() && qi < |questions| && oi < 4
      modifies this
      ensures Valid()
      ensures questions == UpdateOption(old(questions), qi, oi, value)
      ensures name == old(name) && saving == old(saving) && saved == old(saved)
      ensures closed == old(closed) && requests == old(requests)
    {
      UpdateOptionSlots(questions, qi, oi, value);
      var n := questions;
      var opts := n[qi].options;
      opts := Assign(opts, oi, value);
      n := n[qi := n[qi].(options := opts)];
      questions := n;
    }

    /**
     * The form's submit, with `outcome` the save request's result: while a `required` input
     * is empty the browser stops it and nothing happens; otherwise `handleSubmit` sends an
     * update when the OSPE has an id, else a create; `onSave` and `onClose` run only on
     * success; `saving` ends false.
     */
    method Submit(outcome: Outcome<()>)
      modifies this
      ensures !RequiredFilled(old(name), old(questions)) ==>
                requests == old(requests) && saving == old(saving)
                && saved == old(saved) && closed == old(closed)
      ensures RequiredFilled(old(name), old(questions)) ==>
                var body := Payload(old(name), old(questions));
                requests == old(requests) + [if IsEdit() then PutOspe(ospe.value.id, body) else PostOspe(moduleId, body)]
                && saved == (old(saved) || outcome.Ok?) && closed == (old(closed) || outcome.Ok?)
                && !saving
      ensures name == old(name) && questions == old(questions)
    {
      if !RequiredFilled(name, questions) {
        return;
      }
      var body := Payload(name, questions);
      saving := true;
      requests := requests + [if IsEdit() then PutOspe(ospe.value.id, body) else PostOspe(moduleId, body)];
      if outcome.Ok? {
        saved := true;
        closed := true;
      }
      saving := false;
    }
  }
}
