/**
 * The student's OSPE attempt page: the OSPE's questions are numbered globally across its
 * stations, answers are kept per global index, a correct guess on a guess-until-correct
 * question locks it, and submitting sends one answer entry per question.
 */
module OspeAttempt {
  import opened Wrappers
  import opened Strings
  import opened Ospe

  /** A question with its global index. */
  datatype FlatQuestion = FlatQuestion(question: RawQuestion, globalIndex: int)

  /** `s.questions || []`. */
  function StationQuestions(s: RawStation): seq<RawQuestion> {
    s.questions.GetOr([])
  }

  /** All stations' questions, station by station, each station's in its own order. */
  function Concat(stations: seq<RawStation>): seq<RawQuestion> {
    if |stations| == 0 then []
    else Concat(stations[..|stations| - 1]) + StationQuestions(stations[|stations| - 1])
  }

  /** Each question numbered by its position. */
  function Indexed(qs: seq<RawQuestion>): (r: seq<FlatQuestion>)
    ensures |r| == |qs|
    ensures forall k :: 0 <= k < |r| ==> r[k].question == qs[k] && r[k].globalIndex == k
  {
    seq(|qs|, k requires 0 <= k < |qs| => FlatQuestion(qs[k], k))
  }

  /** What `getFlatQuestions` returns: the legacy questions by position, or the stations' questions numbered consecutively. */
  function FlatQuestions(ospe: RawOspe): seq<FlatQuestion> {
    var stations := ospe.stations.GetOr([]);
    var legacy := ospe.questions.GetOr([]);
    if |stations| == 0 && |legacy| > 0 then Indexed(legacy) else Indexed(Concat(stations))
  }

  /** `getFlatQuestions(ospe)`, with its running counter `idx`. */
  method GetFlatQuestions(ospe: RawOspe) returns (flat: seq<FlatQuestion>)
    ensures flat == FlatQuestions(ospe)
  {
    var stations := ospe.stations.GetOr([]);
    var legacy := ospe.questions.GetOr([]);
    if |stations| == 0 && |legacy| > 0 {
      flat := Indexed(legacy);
      return;
    }
    var idx := 0;
    flat := [];
    var si := 0;
    while si < |stations|
      invariant 0 <= si <= |stations|
      invariant idx == |flat|
      invariant flat == Indexed(Concat(stations[..si]))
    {
      var qs := StationQuestions(stations[si]);
      var qi := 0;
      while qi < |qs|
        invariant 0 <= qi <= |qs|
        invariant idx == |flat|
        invariant flat == Indexed(Concat(stations[..si]) + qs[..qi])
      {
        var before := Concat(stations[..si]) + qs[..qi];
        assert Concat(stations[..si]) + qs[..qi + 1] == before + [qs[qi]];
        flat := flat + [FlatQuestion(qs[qi], idx)];
        idx := idx + 1;
        qi := qi + 1;
      }
      assert qs[..qi] == qs;
      assert stations[..si + 1][..si] == stations[..si];
      si := si + 1;
    }
    assert stations[..si] == stations;
  }

  /** The number of questions before station `si`. */
  function Offset(stations: seq<RawStation>, si: nat): nat
    requires si <= |stations|
  {
    |Concat(stations[..si])|
  }

  /** The questions of the first `j` stations are a prefix of all of them. */
  lemma {:induction false} ConcatPrefix(stations: seq<RawStation>, j: nat)
    requires j <= |stations|
    ensures |Concat(stations[..j])| <= |Concat(stations)|
    ensures Concat(stations)[..|Concat(stations[..j])|] == Concat(stations[..j])
    decreases |stations|
  {
    if j == |stations| {
      assert stations[..j] == stations;
    } else {
      var init := stations[..|stations| - 1];
      ConcatPrefix(init, j);
      assert init[..j] == stations[..j];
    }
  }

  /** Question `qi` of station `si` sits at position `Offset(si) + qi` of the concatenation. */
  lemma ConcatAt(stations: seq<RawStation>, si: nat, qi: nat)
    requires si < |stations| && qi < |StationQuestions(stations[si])|
    ensures Offset(stations, si) + qi < |Concat(stations)|
    ensures Concat(stations)[Offset(stations, si) + qi] == StationQuestions(stations[si])[qi]
  {
    var upto := stations[..si + 1];
    assert upto[..|upto| - 1] == stations[..si];
    assert Concat(upto) == Concat(stations[..si]) + StationQuestions(stations[si]);
    ConcatPrefix(stations, si + 1);
  }

  /** The total question count: the flat list has one entry per question and is otherwise empty. */
  function TotalQuestions(stations: seq<RawStation>): nat {
    if |stations| == 0 then 0
    else TotalQuestions(stations[..|stations| - 1]) + |StationQuestions(stations[|stations| - 1])|
  }

  /**
   * The flat list has one entry per question, numbered 0..n-1 consecutively: the legacy
   * questions by position, or every station's questions in order; with neither it is empty.
   */
  lemma {:induction false} FlatQuestionsSpec(ospe: RawOspe)
    ensures var stations := ospe.stations.GetOr([]);
            var legacy := ospe.questions.GetOr([]);
            var flat := FlatQuestions(ospe);
            (forall k :: 0 <= k < |flat| ==> flat[k].globalIndex == k)
            && (|stations| == 0 && |legacy| > 0 ==>
                  |flat| == |legacy| && forall k :: 0 <= k < |flat| ==> flat[k].question == legacy[k])
            && (|stations| > 0 ==> |flat| == TotalQuestions(stations))
            && (|stations| == 0 && |legacy| == 0 ==> flat == [])
  {
    var stations := ospe.stations.GetOr([]);
    ConcatLength(stations);
  }

  lemma {:induction false} ConcatLength(stations: seq<RawStation>)
    ensures |Concat(stations)| == TotalQuestions(stations)
  {
    if |stations| > 0 {
      ConcatLength(stations[..|stations| - 1]);
    }
  }

  /**
   * The render loop's counter `globalIdx`: the index it gives question `qi` of station
   * `si`, for every station in order.
   */
  method RenderIndices(stations: seq<RawStation>) returns (ids: seq<seq<int>>)
    ensures |ids| == |stations|
    ensures forall si :: 0 <= si < |ids| ==>
              |ids[si]| == |StationQuestions(stations[si])|
              && forall qi :: 0 <= qi < |ids[si]| ==> ids[si][qi] == Offset(stations, si) + qi
  {
    var globalIdx := 0;
    ids := [];
    var si := 0;
    while si < |stations|
      invariant 0 <= si <= |stations|
      invariant globalIdx == Offset(stations, si)
      invariant |ids| == si
      invariant forall s :: 0 <= s < si ==>
                  |ids[s]| == |StationQuestions(stations[s])|
                  && forall qi :: 0 <= qi < |ids[s]| ==> ids[s][qi] == Offset(stations, s) + qi
    {
      var qs := StationQuestions(stations[si]);
      var row: seq<int> := [];
      var qi := 0;
      while qi < |qs|
        invariant 0 <= qi <= |qs|
        invariant |row| == qi
        invariant globalIdx == Offset(stations, si) + qi
        invariant forall k :: 0 <= k < qi ==> row[k] == Offset(stations, si) + k
      {
        var i := globalIdx;
        globalIdx := globalIdx + 1;
        row := row + [i];
        qi := qi + 1;
      }
      var upto := stations[..si + 1];
      assert upto[..|upto| - 1] == stations[..si];
      ids := ids + [row];
      si := si + 1;
    }
  }

  /** In the stations case the render counter gives each question the index the flat list gives it. */
  lemma RenderMatchesFlat(ospe: RawOspe, si: nat, qi: nat)
    requires var stations := ospe.stations.GetOr([]);
             |stations| > 0 && si < |stations| && qi < |StationQuestions(stations[si])|
    ensures var stations := ospe.stations.GetOr([]);
            var flat := FlatQuestions(ospe);
            Offset(stations, si) + qi < |flat|
            && flat[Offset(stations, si) + qi] == FlatQuestion(StationQuestions(stations[si])[qi], Offset(stations, si) + qi)
  {
    ConcatAt(ospe.stations.GetOr([]), si, qi);
  }

  /**
   * A stored choice: the number `handleMcqChange` stores, or the radio's own value string
   * that the legacy rendering stores.
   */
  datatype Choice = Number(n: int) | Text(s: string)

  /** The radio values are decimal digit strings. */
  predicate WellFormed(c: Choice) {
    c.Text? ==> |c.s| > 0 && forall k :: 0 <= k < |c.s| ==> IsDigit(c.s[k])
  }

  /** `Number(choice)` on a stored choice. */
  function NumberOf(c: Choice): int
    requires WellFormed(c)
  {
    match c
    case Number(n) => n
    case Text(s) => DigitsValue(s)
  }

  /** One entry of the submitted answer list. */
  datatype AnswerEntry = AnswerEntry(questionIndex: int, selectedIndex: Option<int>, writtenAnswer: Option<string>)

  /** `answerList`: one entry per flat question, looked up under its global index. */
  function AnswerList(flat: seq<FlatQuestion>, choices: map<int, Choice>, written: map<int, string>): seq<AnswerEntry>
    requires forall i :: i in choices ==> WellFormed(choices[i])
  {
    seq(|flat|, k requires 0 <= k < |flat| =>
      var i := flat[k].globalIndex;
      AnswerEntry(i,
                  if i in choices then Some(NumberOf(choices[i])) else None,
                  if i in written then Some(written[i]) else None))
  }

  /**
   * The answer list has one entry per flat question, in order, whose questionIndex is the
   * question's global index; the selected index is absent exactly when that question has no
   * choice, and a legacy choice of radio `j` is sent as `j`; the written answer is passed on as stored.
   */
  lemma AnswerListSpec(flat: seq<FlatQuestion>, choices: map<int, Choice>, written: map<int, string>)
    requires forall i :: i in choices ==> WellFormed(choices[i])
    ensures var r := AnswerList(flat, choices, written);
            |r| == |flat|
            && forall k :: 0 <= k < |r| ==>
                 var i := flat[k].globalIndex;
                 r[k].questionIndex == i
                 && (r[k].selectedIndex.None? <==> i !in choices)
                 && (i in choices && choices[i].Number? ==> r[k].selectedIndex == Some(choices[i].n))
                 && (r[k].writtenAnswer.None? <==> i !in written)
                 && (i in written ==> r[k].writtenAnswer == Some(written[i]))
  {
  }

  /** A legacy radio choice `j` is stored as the string of `j` and sent back as the number `j`. */
  lemma LegacyChoiceRoundTrip(j: nat)
    ensures WellFormed(Text(NatToString(j)))
    ensures NumberOf(Text(NatToString(j))) == j
  {
    DigitsValueOfNatToString(j);
  }

  /** A question's radios are disabled: a guess-until-correct question already guessed right. */
  predicate Locked(guessCorrect: set<int>, i: int, q: RawQuestion) {
    q.kind == Some(GuessUntilCorrect) && i in guessCorrect
  }

  /** Choosing radio `j` of question `q` sets `guessCorrect[i]` exactly for a correct guess-until-correct choice. */
  function GuessUpdate(guessCorrect: set<int>, i: int, q: RawQuestion, j: int): (g: set<int>)
    ensures guessCorrect <= g
    ensures g - guessCorrect <= {i}
    ensures i in g <==> i in guessCorrect
                        || (q.kind == Some(GuessUntilCorrect) && q.correctIndex.Some? && j == q.correctIndex.value)
  {
    if q.kind == Some(GuessUntilCorrect) && q.correctIndex.Some? && j == q.correctIndex.value
    then guessCorrect + {i}
    else guessCorrect
  }

  /** The attempt page's state once the OSPE is loaded. */
  class Attempt {
    const ospe: RawOspe
    /** `answers[q{i}_opt]`. */
    var choices: map<int, Choice>
    /** `answers[q{i}_written]`. */
    var written: map<int, string>
    /** The indices `guessCorrect` maps to true. */
    var guessCorrect: set<int>
    var submitted: bool
    var requests: seq<seq<AnswerEntry>>

    predicate Valid()
      reads this
    {
      forall i :: i in choices ==> WellFormed(choices[i])
    }

    constructor (ospe: RawOspe)
      ensures Valid()
      ensures this.ospe == ospe && choices == map[] && written == map[]
      ensures guessCorrect == {} && !submitted && requests == []
    {
      this.ospe := ospe;
      choices := map[];
      written := map[];
      guessCorrect := {};
      submitted := false;
      requests := [];
    }

    /**
     * `handleMcqChange(i, q, j)` from radio `j` of a station question, which is enabled
     * only while the question is not locked: the choice is stored as a number, and a correct
     * guess locks the question for good.
     */
    method McqChange(i: int, q: RawQuestion, j: nat)
      requires Valid() && !Locked(guessCorrect, i, q)
      modifies this
      ensures Valid()
      ensures choices == old(choices)[i := Number(j)]
      ensures guessCorrect == GuessUpdate(old(guessCorrect), i, q, j)
      ensures written == old(written) && submitted == old(submitted) && requests == old(requests)
    {
      choices := choices[i := Number(j)];
      if q.kind == Some(GuessUntilCorrect) && q.correctIndex.Some? && j == q.correctIndex.value {
        guessCorrect := guessCorrect + {i};
      }
    }

    /** Radio `j` of legacy question `i`: the radio's value string is stored as it is. */
    method LegacyChoice(i: int, j: nat)
      requires Valid()
      modifies this
      ensures Valid()
      ensures choices == old(choices)[i := Text(NatToString(j))]
      ensures written == old(written) && guessCorrect == old(guessCorrect)
      ensures submitted == old(submitted) && requests == old(requests)
    {
      LegacyChoiceRoundTrip(j);
      choices := choices[i := Text(NatToString(j))];
    }

    /** Typing into question `i`'s answer box. */
    method Write(i: int, text: string)
      requires Valid()
      modifies this
      ensures Valid()
      ensures written == old(written)[i := text]
      ensures choices == old(choices) && guessCorrect == old(guessCorrect)
      ensures submitted == old(submitted) && requests == old(requests)
    {
      written := written[i := text];
    }

    /** `handleSubmit`, with `outcome` the post's result: the page switches to "saved" only on success. */
    method Submit(outcome: Outcome<()>)
      requires Valid()
      modifies this
      ensures Valid()
      ensures requests == old(requests) + [AnswerList(FlatQuestions(ospe), choices, written)]
      ensures submitted == (old(submitted) || outcome.Ok?)
      ensures choices == old(choices) && written == old(written) && guessCorrect == old(guessCorrect)
    {
      var flat := GetFlatQuestions(ospe);
      requests := requests + [AnswerList(flat, choices, written)];
      if outcome.Ok? {
        submitted := true;
      }
    }
  }
}
