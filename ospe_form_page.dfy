/**
 * The full-page OSPE editor: stations, each with an image and a list of questions. An
 * existing OSPE is normalised into the editor's shape on load (the legacy flat shape is
 * upgraded to one station per question), the updaters edit one station, question or
 * option by index, and saving assembles a payload whose fields depend on the question type.
 */
module OspeFormPage {
  import opened Wrappers
  import opened Strings
  import opened Seqs
  import opened Ospe

  /** A question as the editor holds it: every field present. */
  datatype Question = Question(
    questionText: string,
    kind: string,
    options: seq<string>,
    correctIndex: int,
    expectedAnswer: string)

  /** A station as the editor holds it. */
  datatype Station = Station(imageUrl: string, questions: seq<Question>, order: int)

  /** `emptyQuestion()`. */
  const EmptyQuestion: Question := Question("", TextMcq, ["", "", "", ""], 0, "")

  /** `emptyStation()`. */
  const EmptyStation: Station := Station("", [EmptyQuestion], 0)

  /** A question fetched in the stations shape: missing fields take their defaults. */
  function LoadQuestion(q: RawQuestion): Question {
    Question(q.questionText.GetOr(""), OrDefault(q.kind, TextMcq), PadOptions(q.options),
             q.correctIndex.GetOr(0), q.expectedAnswer.GetOr(""))
  }

  /** Station `si` of the stations shape: its order becomes its position. */
  function LoadStation(s: RawStation, si: int): Station {
    var qs := s.questions.GetOr([]);
    Station(s.imageUrl.GetOr(""), seq(|qs|, k requires 0 <= k < |qs| => LoadQuestion(qs[k])), si)
  }

  /** Legacy question `i` becomes a one-question station carrying the question's image. */
  function LegacyStation(q: RawQuestion, i: int): Station {
    var kind := if q.kind == Some(VivaWritten) then VivaWritten else TextMcq;
    Station(q.imageUrl.GetOr(""),
            [Question(q.questionText.GetOr(""), kind, PadOptions(q.options),
                      q.correctIndex.GetOr(0), q.expectedAnswer.GetOr(""))],
            i)
  }

  /**
   * The stations after loading `ospe`: the stations shape when it has stations, else the
   * legacy questions when there are some, else the editor's current stations unchanged.
   */
  function LoadStations(ospe: RawOspe, current: seq<Station>): seq<Station> {
    var sts := ospe.stations.GetOr([]);
    var legacy := ospe.questions.GetOr([]);
    if |sts| > 0 then seq(|sts|, si requires 0 <= si < |sts| => LoadStation(sts[si], si))
    else if |legacy| > 0 then seq(|legacy|, i requires 0 <= i < |legacy| => LegacyStation(legacy[i], i))
    else current
  }

  /**
   * Loading the stations shape keeps the station count and each station's question count;
   * each station's order is its index, and missing fields take the defaults.
   */
  lemma LoadStationsShape(ospe: RawOspe, current: seq<Station>)
    requires |ospe.stations.GetOr([])| > 0
    ensures var sts := ospe.stations.value;
            var r := LoadStations(ospe, current);
            |r| == |sts|
            && forall si :: 0 <= si < |r| ==>
                 var qs := sts[si].questions.GetOr([]);
                 r[si].order == si
                 && r[si].imageUrl == sts[si].imageUrl.GetOr("")
                 && |r[si].questions| == |qs|
                 && forall qi :: 0 <= qi < |qs| ==>
                      r[si].questions[qi].kind == OrDefault(qs[qi].kind, TextMcq)
                      && r[si].questions[qi].correctIndex == qs[qi].correctIndex.GetOr(0)
                      && r[si].questions[qi].options == PadOptions(qs[qi].options)
                      && r[si].questions[qi].questionText == qs[qi].questionText.GetOr("")
                      && r[si].questions[qi].expectedAnswer == qs[qi].expectedAnswer.GetOr("")
  {
  }

  /**
   * A legacy OSPE (no stations, some questions) becomes one station per question, in order:
   * the station has the question's image and its index as order, its one question keeps the
   * text, options, correct index and expected answer (missing ones take their defaults), and
   * the type becomes `viva_written` if it was, otherwise `text_mcq`.
   */
  lemma LoadStationsLegacy(ospe: RawOspe, current: seq<Station>)
    requires |ospe.stations.GetOr([])| == 0 && |ospe.questions.GetOr([])| > 0
    ensures var legacy := ospe.questions.value;
            var r := LoadStations(ospe, current);
            |r| == |legacy|
            && forall i :: 0 <= i < |r| ==>
                 r[i].order == i
                 && r[i].imageUrl == legacy[i].imageUrl.GetOr("")
                 && |r[i].questions| == 1
                 && (r[i].questions[0].kind == VivaWritten <==> legacy[i].kind == Some(VivaWritten))
                 && (r[i].questions[0].kind != VivaWritten ==> r[i].questions[0].kind == TextMcq)
                 && r[i].questions[0].options == PadOptions(legacy[i].options)
                 && r[i].questions[0].questionText == legacy[i].questionText.GetOr("")
                 && r[i].questions[0].correctIndex == legacy[i].correctIndex.GetOr(0)
                 && r[i].questions[0].expectedAnswer == legacy[i].expectedAnswer.GetOr("")
  {
  }

  /** An OSPE with neither stations nor questions leaves the editor as it was. */
  lemma LoadStationsNeither(ospe: RawOspe, current: seq<Station>)
    requires |ospe.stations.GetOr([])| == 0 && |ospe.questions.GetOr([])| == 0
    ensures LoadStations(ospe, current) == current
  {
  }

  /** A question field the editor's inputs set through `setQuestion`. */
  datatype QuestionField =
    | SetText(text: string)
    | SetKind(kind: string)
    | SetCorrectIndex(index: int)
    | SetExpectedAnswer(answer: string)

  /** `{ ...q, [field]: value }`. */
  function WithField(q: Question, f: QuestionField): Question {
    match f
    case SetText(t) => q.(questionText := t)
    case SetKind(k) => q.(kind := k)
    case SetCorrectIndex(i) => q.(correctIndex := i)
    case SetExpectedAnswer(a) => q.(expectedAnswer := a)
  }

  /** Only the named field changes. */
  lemma WithFieldChangesOne(q: Question, f: QuestionField)
    ensures WithField(q, f).options == q.options
    ensures !f.SetText? ==> WithField(q, f).questionText == q.questionText
    ensures !f.SetKind? ==> WithField(q, f).kind == q.kind
    ensures !f.SetCorrectIndex? ==> WithField(q, f).correctIndex == q.correctIndex
    ensures !f.SetExpectedAnswer? ==> WithField(q, f).expectedAnswer == q.expectedAnswer
  {
  }

  /**
   * The option list `setOption` writes: the question's options padded as on load, with
   * slot `oi` set to `value` (slot 3 of a three-slot list is appended).
   */
  function SetOptionIn(options: seq<string>, oi: nat, value: string): (r: seq<string>)
    requires oi < 4
    ensures |r| == if |options| + 3 < 4 then (if oi < |options| + 3 then |options| + 3 else 4) else 4
    ensures r[oi] == value
    ensures forall k :: 0 <= k < |r| && k != oi ==> r[k] == (if k < |options| then options[k] else "")
  {
    var padded := PadOptions(Some(options));
    Assign(padded, oi, value)
  }

  /** `setQuestion(si, qi, field, value)` on the station list: only that question's field changes. */
  function UpdateQuestion(stations: seq<Station>, si: nat, qi: nat, f: QuestionField): (r: seq<Station>)
    requires si < |stations| && qi < |stations[si].questions|
    ensures |r| == |stations|
    ensures forall k :: 0 <= k < |r| && k != si ==> r[k] == stations[k]
    ensures r[si].imageUrl == stations[si].imageUrl && r[si].order == stations[si].order
    ensures |r[si].questions| == |stations[si].questions|
    ensures forall k :: 0 <= k < |r[si].questions| && k != qi ==> r[si].questions[k] == stations[si].questions[k]
    ensures r[si].questions[qi] == WithField(stations[si].questions[qi], f)
  {
    var qs := stations[si].questions;
    stations[si := stations[si].(questions := qs[qi := WithField(qs[qi], f)])]
  }

  /** `setOption(si, qi, oi, value)` on the station list: only that question's options change. */
  function UpdateOption(stations: seq<Station>, si: nat, qi: nat, oi: nat, value: string): (r: seq<Station>)
    requires si < |stations| && qi < |stations[si].questions| && oi < 4
    ensures |r| == |stations|
    ensures forall k :: 0 <= k < |r| && k != si ==> r[k] == stations[k]
    ensures r[si].imageUrl == stations[si].imageUrl && r[si].order == stations[si].order
    ensures |r[si].questions| == |stations[si].questions|
    ensures forall k :: 0 <= k < |r[si].questions| && k != qi ==> r[si].questions[k] == stations[si].questions[k]
    ensures r[si].questions[qi] ==
            stations[si].questions[qi].(options := SetOptionIn(stations[si].questions[qi].options, oi, value))
  {
    var qs := stations[si].questions;
    var q := qs[qi];
    stations[si := stations[si].(questions := qs[qi := q.(options := SetOptionIn(q.options, oi, value))])]
  }

  /** `['text_mcq', 'picture_mcq', 'guess_until_correct'].includes(type)`. */
  predicate IsMcqKind(kind: string) {
    kind == TextMcq || kind == PictureMcq || kind == GuessUntilCorrect
  }

  /** A question as it is sent: `None` is a field left `undefined`. */
  datatype QuestionPayload = QuestionPayload(
    questionText: string,
    kind: string,
    options: Option<seq<string>>,
    correctIndex: Option<int>,
    expectedAnswer: Option<string>,
    order: int)

  /** A station as it is sent. */
  datatype StationPayload = StationPayload(imageUrl: Option<string>, order: int, questions: seq<QuestionPayload>)

  /** The body of the save request. */
  datatype SavePayload = SavePayload(name: string, stations: seq<StationPayload>)

  function QuestionPayloadOf(q: Question, order: int): QuestionPayload {
    QuestionPayload(
      q.questionText, q.kind,
      if IsMcqKind(q.kind) then Some(NonEmpty(q.options)) else None,
      if IsMcqKind(q.kind) then Some(q.correctIndex) else None,
      if q.kind == VivaWritten then Some(q.expectedAnswer) else None,
      order)
  }

  function StationPayloadOf(s: Station, order: int): StationPayload {
    var qs := s.questions;
    StationPayload(if s.imageUrl == "" then None else Some(s.imageUrl), order,
                   seq(|qs|, k requires 0 <= k < |qs| => QuestionPayloadOf(qs[k], k)))
  }

  /**
   * The browser's check of the `required` inputs before `onSubmit` runs: the name and every
   * question's text are non-empty (a value of only spaces passes).
   */
  predicate RequiredFilled(name: string, stations: seq<Station>) {
    name != ""
    && forall si, qi :: 0 <= si < |stations| && 0 <= qi < |stations[si].questions| ==>
         stations[si].questions[qi].questionText != ""
  }

  /** `handleSubmit`'s payload. */
  function Payload(name: string, stations: seq<Station>): SavePayload {
    SavePayload(name, seq(|stations|, k requires 0 <= k < |stations| => StationPayloadOf(stations[k], k)))
  }

  /**
   * The payload keeps every station and question in place with its position as `order`;
   * an empty image becomes absent; MCQ-type questions carry their non-empty options and
   * the unchanged correctIndex, and no expectedAnswer; viva questions carry the
   * expectedAnswer and neither options nor correctIndex; any other type carries none of the three.
   */
  lemma PayloadSpec(name: string, stations: seq<Station>)
    ensures var p := Payload(name, stations);
            p.name == name && |p.stations| == |stations|
            && forall si :: 0 <= si < |stations| ==>
                 var st := p.stations[si];
                 var qs := stations[si].questions;
                 st.order == si
                 && (st.imageUrl.None? <==> stations[si].imageUrl == "")
                 && (st.imageUrl.Some? ==> st.imageUrl.value == stations[si].imageUrl)
                 && |st.questions| == |qs|
                 && forall qi :: 0 <= qi < |qs| ==>
                      var pq := st.questions[qi];
                      pq.order == qi && pq.kind == qs[qi].kind && pq.questionText == qs[qi].questionText
                      && (IsMcqKind(qs[qi].kind) ==>
                            pq.options == Some(NonEmpty(qs[qi].options))
                            && pq.correctIndex == Some(qs[qi].correctIndex) && pq.expectedAnswer.None?)
                      && (qs[qi].kind == VivaWritten ==>
                            pq.expectedAnswer == Some(qs[qi].expectedAnswer)
                            && pq.options.None? && pq.correctIndex.None?)
                      && (!IsMcqKind(qs[qi].kind) && qs[qi].kind != VivaWritten ==>
                            pq.options.None? && pq.correctIndex.None? && pq.expectedAnswer.None?)
  {
  }

  /** The save request: an update when editing an existing OSPE, a create under the module otherwise. */
  datatype SaveRequest = PutOspe(ospeId: string, body: SavePayload) | PostOspe(moduleId: string, body: SavePayload)

  /** The editor's state. */
  class Editor {
    var name: string
    var stations: seq<Station>
    var saving: bool
    var navigated: bool
    var requests: seq<SaveRequest>
    /** The route's `ospeId`: present (and non-empty) in edit mode. */
    const ospeId: Option<string>
    const moduleId: string

    /** A new form: no name and one empty station. */
    constructor (ospeId: Option<string>, moduleId: string)
      ensures name == "" && stations == [EmptyStation]
      ensures !saving && !navigated && requests == []
      ensures this.ospeId == ospeId && this.moduleId == moduleId
    {
      name := "";
      stations := [EmptyStation];
      saving := false;
      navigated := false;
      requests := [];
      this.ospeId := ospeId;
      this.moduleId := moduleId;
    }

    /** `Boolean(ospeId)`. */
    predicate IsEdit()
      reads this
    {
      ospeId.Some? && ospeId.value != ""
    }

    /**
     * The edit-mode fetch settled: `found` is the OSPE with the route's id, if the fetch
     * succeeded and the list held one. Only then do the name and stations change.
     */
    method Loaded(found: Option<RawOspe>)
      modifies this
      ensures found.Some? ==> name == found.value.name.GetOr("")
                              && stations == LoadStations(found.value, old(stations))
      ensures found.None? ==> name == old(name) && stations == old(stations)
      ensures saving == old(saving) && navigated == old(navigated) && requests == old(requests)
    {
      if found.Some? {
        name := found.value.name.GetOr("");
        stations := LoadStations(found.value, stations);
      }
    }

    /** `addStation`: one empty station at the end. */
    method AddStation()
      modifies this
      ensures stations == old(stations) + [EmptyStation]
      ensures name == old(name) && saving == old(saving) && navigated == old(navigated)
      ensures requests == old(requests)
    {
      stations := stations + [EmptyStation];
    }

    /** `removeStation(si)`: exactly station `si` goes, the others keep their order. */
    method RemoveStation(si: int)
      modifies this
      ensures stations == RemoveIndex(old(stations), si)
      ensures name == old(name) && saving == old(saving) && navigated == old(navigated)
      ensures requests == old(requests)
    {
      stations := RemoveIndex(stations, si);
    }

    /** `addQuestion(si)`: one empty question at the end of station `si`. */
    method AddQuestion(si: nat)
      requires si < |stations|
      modifies this
      ensures |stations| == |old(stations)|
      ensures forall k :: 0 <= k < |stations| && k != si ==> stations[k] == old(stations[k])
      ensures stations[si] == old(stations[si]).(questions := old(stations[si].questions) + [EmptyQuestion])
      ensures name == old(name) && saving == old(saving) && navigated == old(navigated)
      ensures requests == old(requests)
    {
      var n := stations;
      n := n[si := n[si].(questions := n[si].questions + [EmptyQuestion])];
      stations := n;
    }

    /** `removeQuestion(si, qi)`: exactly question `qi` of station `si` goes. */
    method RemoveQuestion(si: nat, qi: int)
      requires si < |stations|
      modifies this
      ensures |stations| == |old(stations)|
      ensures forall k :: 0 <= k < |stations| && k != si ==> stations[k] == old(stations[k])
      ensures stations[si] == old(stations[si]).(questions := RemoveIndex(old(stations[si].questions), qi))
      ensures name == old(name) && saving == old(saving) && navigated == old(navigated)
      ensures requests == old(requests)
    {
      var n := stations;
      n := n[si := n[si].(questions := RemoveIndex(n[si].questions, qi))];
      stations := n;
    }

    /** `setQuestion(si, qi, field, value)`. */
    method SetQuestion(si: nat, qi: nat, f: QuestionField)
      requires si < |stations| && qi < |stations[si].questions|
      modifies this
      ensures stations == UpdateQuestion(old(stations), si, qi, f)
      ensures name == old(name) && saving == old(saving) && navigated == old(navigated)
      ensures requests == old(requests)
    {
      var n := stations;
      var qs := n[si].questions;
      qs := qs[qi := WithField(qs[qi], f)];
      n := n[si := n[si].(questions := qs)];
      stations := n;
    }

    /** `setOption(si, qi, oi, value)` for one of the four option inputs. */
    method SetOption(si: nat, qi: nat, oi: nat, value: string)
      requires si < |stations| && qi < |stations[si].questions| && oi < 4
      modifies this
      ensures stations == UpdateOption(old(stations), si, qi, oi, value)
      ensures name == old(name) && saving == old(saving) && navigated == old(navigated)
      ensures requests == old(requests)
    {
      var n := stations;
      var qs := n[si].questions;
      var opts := SetOptionIn(qs[qi].options, oi, value);
      qs := qs[qi := qs[qi].(options := opts)];
      n := n[si := n[si].(questions := qs)];
      stations := n;
    }

    /**
     * The form's submit, with `outcome` the save request's result: while a `required` input
     * is empty the browser stops it and nothing happens; otherwise `handleSubmit` sends the
     * payload as an update in edit mode and as a create otherwise, success navigates to the
     * list, and `saving` ends false either way.
     */
    method Submit(outcome: Outcome<()>)
      modifies this
      ensures !RequiredFilled(old(name), old(stations)) ==>
                requests == old(requests) && navigated == old(navigated) && saving == old(saving)
      ensures RequiredFilled(old(name), old(stations)) ==>
                var body := Payload(old(name), old(stations));
                requests == old(requests) + [if IsEdit() then PutOspe(ospeId.value, body) else PostOspe(moduleId, body)]
                && navigated == (old(navigated) || outcome.Ok?)
                && !saving
      ensures name == old(name) && stations == old(stations)
    {
      if !RequiredFilled(name, stations) {
        return;
      }
      var body := Payload(name, stations);
      saving := true;
      requests := requests + [if IsEdit() then PutOspe(ospeId.value, body) else PostOspe(moduleId, body)];
      if outcome.Ok? {
        navigated := true;
      }
      saving := false;
    }
  }
}
