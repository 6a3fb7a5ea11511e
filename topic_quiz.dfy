/**
 * The student's topic quiz: one MCQ at a time; a submitted answer is recorded, a correct
 * one advances after a delay, a wrong one can be retried or skipped. Without access the
 * page offers the free trial, which re-requests the topic.
 */
module TopicQuiz {
  import opened Wrappers
  import opened ModulesPage

  /** An MCQ as the quiz needs it. */
  datatype QuizMcq = QuizMcq(id: string, options: seq<string>)

  /** The topic response: the topic (if found), its MCQs, the access flag and whether the trial was spent on it. */
  datatype TopicResponse =
    | TopicData(topicFound: bool, mcqs: Option<seq<QuizMcq>>, hasAccess: bool, usedFreeTrial: bool)
    | TopicError(status: Option<int>)

  datatype Request = GetTopic(useFreeTrial: bool) | PostAttempt(mcqId: string, selectedIndex: int) | RefreshUser

  /**
   * The index after the advance timer as written: the timer compares the index captured
   * when the answer was submitted, but increments the current one.
   */
  function AdvanceAsWritten(captured: int, current: int, count: int): int {
    if captured < count - 1 then current + 1 else current
  }

  /**
   * A Skip taken while a correct answer is still on its way moves the quiz to the last
   * question; the timer then compares the earlier index and moves past the last question.
   */
  lemma AdvanceAsWrittenOverruns()
    ensures AdvanceAsWritten(3, 4, 5) == 5
  {
  }

  /** The timer's advance on the current index: one step, but never past the last question. */
  function Advance(current: int, count: int): (r: int)
    ensures r == current || r == current + 1
    ensures r == current + 1 <==> current < count - 1
  {
    if current < count - 1 then current + 1 else current
  }

  /** From a valid index the advance stays valid. */
  lemma AdvanceInRange(current: int, count: int)
    requires 0 <= current < count
    ensures 0 <= Advance(current, count) < count
  {
  }

  /** Without an interleaved Skip both agree. */
  lemma AdvanceAgrees(current: int, count: int)
    ensures AdvanceAsWritten(current, current, count) == Advance(current, count)
  {
  }

  /** `!user?.freeTrialUsed`. */
  predicate FreeTrialOffered(user: Option<User>) {
    user.None? || !user.value.freeTrialUsed
  }

  /** The quiz's state. `pending` is a scheduled advance timer. */
  class Quiz {
    var mcqs: seq<QuizMcq>
    var topicFound: bool
    var hasAccess: bool
    var useFreeTrial: bool
    var currentIndex: int
    var selected: Option<int>
    /** `result.correct` of the last attempt, if any. */
    var result: Option<bool>
    var loading: bool
    var submitting: bool
    var pending: bool
    var requests: seq<Request>

    /** At most one attempt or timer is active; a timer runs only while the success panel shows. */
    predicate Valid()
      reads this
    {
      0 <= currentIndex
      && (pending ==> result == Some(true) && !submitting)
    }

    /** The page opened: the first topic request is on its way. */
    constructor ()
      ensures Valid()
      ensures mcqs == [] && !topicFound && !hasAccess && !useFreeTrial
      ensures currentIndex == 0 && selected.None? && result.None?
      ensures loading && !submitting && !pending && requests == [GetTopic(false)]
    {
      mcqs := [];
      topicFound := false;
      hasAccess := false;
      useFreeTrial := false;
      currentIndex := 0;
      selected := None;
      result := None;
      loading := true;
      submitting := false;
      pending := false;
      requests := [GetTopic(false)];
    }

    /** The quiz panel is on screen: loaded, found, with access and some MCQs. */
    predicate QuizShown()
      reads this
    {
      !loading && topicFound && hasAccess && |mcqs| > 0
    }

    /** The question (not the success panel) is on screen. */
    predicate QuestionShown()
      reads this
    {
      QuizShown() && result != Some(true)
    }

    /** Skip is rendered: not on the last question and the last answer was wrong. */
    predicate SkipOffered()
      reads this
    {
      QuestionShown() && currentIndex < |mcqs| - 1 && result == Some(false)
    }

    /** The index names an MCQ. */
    predicate IndexInRange()
      reads this
    {
      currentIndex < |mcqs|
    }

    /**
     * The topic request made for trial flag `forTrial` settled. A request for an older flag
     * value was cancelled and is ignored; otherwise the data replaces topic, MCQs and access
     * (a spent trial refreshes the user), a 403 clears access, and loading ends.
     */
    method Loaded(forTrial: bool, response: TopicResponse)
      requires Valid() && !submitting && !pending
      modifies this
      ensures Valid()
      ensures forTrial != old(useFreeTrial) ==>
                mcqs == old(mcqs) && topicFound == old(topicFound) && hasAccess == old(hasAccess)
                && loading == old(loading) && requests == old(requests)
      ensures forTrial == old(useFreeTrial) ==> !loading
      ensures forTrial == old(useFreeTrial) && response.TopicData? ==>
                topicFound == response.topicFound && mcqs == response.mcqs.GetOr([])
                && hasAccess == response.hasAccess
                && requests == old(requests) + (if response.usedFreeTrial then [RefreshUser] else [])
      ensures forTrial == old(useFreeTrial) && response.TopicError? ==>
                mcqs == old(mcqs) && topicFound == old(topicFound) && requests == old(requests)
                && hasAccess == (old(hasAccess) && response.status != Some(403))
      ensures useFreeTrial == old(useFreeTrial) && currentIndex == old(currentIndex)
      ensures selected == old(selected) && result == old(result) && !submitting && !pending
    {
      if forTrial != useFreeTrial {
        return;
      }
      match response {
        case TopicData(found, ms, access, used) =>
          topicFound := found;
          mcqs := ms.GetOr([]);
          hasAccess := access;
          if used {
            requests := requests + [RefreshUser];
          }
        case TopicError(status) =>
          if status == Some(403) {
            hasAccess := false;
          }
      }
      loading := false;
    }

    /**
     * `handleUseFreeTrial`, offered only on the no-access view: the flag is set and loading
     * starts; the topic is re-requested with the trial only if the flag was not already set.
     */
    method UseFreeTrial(user: Option<User>)
      requires Valid() && !loading && topicFound && !hasAccess && FreeTrialOffered(user)
      modifies this
      ensures Valid()
      ensures useFreeTrial && loading
      ensures requests == old(requests) + (if old(useFreeTrial) then [] else [GetTopic(true)])
      ensures mcqs == old(mcqs) && topicFound == old(topicFound) && hasAccess == old(hasAccess)
      ensures currentIndex == old(currentIndex) && selected == old(selected) && result == old(result)
      ensures submitting == old(submitting) && pending == old(pending)
    {
      if !useFreeTrial {
        requests := requests + [GetTopic(true)];
      }
      useFreeTrial := true;
      loading := true;
    }

    /** Clicking option `i` of the current question. */
    method Select(i: nat)
      requires Valid() && QuestionShown() && IndexInRange() && i < |mcqs[currentIndex].options|
      modifies this
      ensures Valid()
      ensures selected == Some(i as int)
      ensures mcqs == old(mcqs) && topicFound == old(topicFound) && hasAccess == old(hasAccess)
      ensures useFreeTrial == old(useFreeTrial) && currentIndex == old(currentIndex) && result == old(result)
      ensures loading == old(loading) && submitting == old(submitting) && pending == old(pending)
      ensures requests == old(requests)
    {
      selected := Some(i);
    }

    /**
     * The first half of `handleSubmitAnswer`: a no-op without a selection or without an MCQ
     * at the current index; otherwise the attempt is posted and `submitting` is set.
     */
    method StartSubmit()
      requires Valid() && QuestionShown() && !submitting
      modifies this
      ensures Valid()
      ensures selected.None? || !(0 <= currentIndex < |mcqs|) ==> !submitting && requests == old(requests)
      ensures selected.Some? && 0 <= currentIndex < |mcqs| ==>
                submitting && requests == old(requests) + [PostAttempt(mcqs[currentIndex].id, selected.value)]
      ensures mcqs == old(mcqs) && topicFound == old(topicFound) && hasAccess == old(hasAccess)
      ensures useFreeTrial == old(useFreeTrial) && currentIndex == old(currentIndex)
      ensures selected == old(selected) && result == old(result)
      ensures loading == old(loading) && pending == old(pending)
    {
      if selected.None? || !(0 <= currentIndex < |mcqs|) {
        return;
      }
      submitting := true;
      requests := requests + [PostAttempt(mcqs[currentIndex].id, selected.value)];
    }

    /**
     * The second half of `handleSubmitAnswer`, with `outcome` the attempt's result: the
     * result is shown, a correct answer schedules the advance, and `submitting` ends. A wrong
     * answer keeps the selection and the index.
     */
    method FinishSubmit(outcome: Outcome<bool>)
      requires Valid() && submitting
      modifies this
      ensures Valid()
      ensures !submitting
      ensures outcome.Ok? ==> result == Some(outcome.data) && pending == outcome.data
      ensures outcome.Failed? ==> result == old(result) && pending == old(pending)
      ensures mcqs == old(mcqs) && topicFound == old(topicFound) && hasAccess == old(hasAccess)
      ensures useFreeTrial == old(useFreeTrial) && currentIndex == old(currentIndex)
      ensures selected == old(selected) && loading == old(loading) && requests == old(requests)
    {
      if outcome.Ok? {
        result := Some(outcome.data);
        if outcome.data {
          pending := true;
        }
      }
      submitting := false;
    }

    /** The advance timer fires: result and selection clear, and the index advances unless it is the last. */
    method AdvanceTimer()
      requires Valid() && pending
      modifies this
      ensures Valid()
      ensures !pending && result.None? && selected.None?
      ensures currentIndex == Advance(old(currentIndex), |mcqs|)
      ensures old(IndexInRange()) ==> IndexInRange()
      ensures mcqs == old(mcqs) && topicFound == old(topicFound) && hasAccess == old(hasAccess)
      ensures useFreeTrial == old(useFreeTrial) && loading == old(loading)
      ensures submitting == old(submitting) && requests == old(requests)
    {
      result := None;
      selected := None;
      currentIndex := Advance(currentIndex, |mcqs|);
      pending := false;
    }

    /** Skip: result and selection clear and the index moves on by exactly one, never past the last question. */
    method Skip()
      requires Valid() && SkipOffered()
      modifies this
      ensures Valid()
      ensures result.None? && selected.None?
      ensures currentIndex == old(currentIndex) + 1 && currentIndex < |mcqs|
      ensures mcqs == old(mcqs) && topicFound == old(topicFound) && hasAccess == old(hasAccess)
      ensures useFreeTrial == old(useFreeTrial) && loading == old(loading)
      ensures submitting == old(submitting) && pending == old(pending) && requests == old(requests)
    {
      result := None;
      selected := None;
      currentIndex := currentIndex + 1;
    }
  }
}
