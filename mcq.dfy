/**
 * What the two MCQ editors share: the fetched MCQ shape, the option inputs, the submit
 * validation and the save payload.
 */
module Mcq {
  import opened Wrappers
  import opened Seqs

  /** A fetched MCQ; `None` is a missing field. */
  datatype RawMcq = RawMcq(
    id: Option<string>,
    question: Option<string>,
    options: Option<seq<string>>,
    correctIndex: Option<int>,
    explanation: Option<string>,
    videoUrl: Option<string>,
    kind: Option<string>,
    imageUrl: Option<string>,
    order: Option<int>)

  const ImageKind: string := "image"
  const TextKind: string := "text"
  const BlankOptions: seq<string> := ["", "", "", ""]

  /** `options?.length ? options : ['', '', '', '']`. */
  function OptionsOrBlank(options: Option<seq<string>>): (r: seq<string>)
    ensures options.Some? && |options.value| > 0 ==> r == options.value
    ensures options.None? || |options.value| == 0 ==> r == BlankOptions
  {
    if options.Some? && |options.value| > 0 then options.value else BlankOptions
  }

  /**
   * `n[i] = value` on a copy of the options, from option input `i`: past the end the array
   * grows, and the holes it leaves read as empty options.
   */
  function SetSlot(options: seq<string>, i: nat, value: string): (r: seq<string>)
    ensures |r| == if i < |options| then |options| else i + 1
    ensures r[i] == value
    ensures forall k :: 0 <= k < |r| && k != i ==> r[k] == (if k < |options| then options[k] else "")
  {
    if i < |options| then options[i := value]
    else options + seq(i - |options|, _ => "") + [value]
  }

  /** The outcome of submit validation: the options and correct index to send, or the reason for the alert. */
  datatype Verdict = Accept(options: seq<string>, correctIndex: int) | TooFewOptions | BadCorrectIndex

  /**
   * The validation as written in both editors: the blank options are dropped, at least two
   * must remain, and the correct index must lie inside the remaining list. The index is
   * sent unchanged.
   */
  function ValidateAsWritten(options: seq<string>, correctIndex: int): (v: Verdict)
    ensures v.TooFewOptions? <==> |NonEmpty(options)| < 2
    ensures v.BadCorrectIndex? <==> |NonEmpty(options)| >= 2 && !(0 <= correctIndex < |NonEmpty(options)|)
    ensures v.Accept? ==> v.options == NonEmpty(options) && v.correctIndex == correctIndex
  {
    var opts := NonEmpty(options);
    if |opts| < 2 then TooFewOptions
    else if correctIndex < 0 || correctIndex >= |opts| then BadCorrectIndex
    else Accept(opts, correctIndex)
  }

  /**
   * The correct index is a position among the option inputs, but the index sent is read
   * against the list with blanks removed: with the second input left blank and the third
   * marked correct, the fourth option is saved as the answer.
   */
  lemma AsWrittenShiftsAnswer()
    ensures var v := ValidateAsWritten(["A", "", "C", "D"], 2);
            v.Accept? && v.options[v.correctIndex] == "D"
  {
    var opts := ["A", "", "C", "D"];
    assert opts[1..] == ["", "C", "D"];
    assert opts[1..][1..] == ["C", "D"];
    assert opts[1..][1..][1..] == ["D"];
    assert opts[1..][1..][1..][1..] == [];
    assert NonEmpty(opts) == ["A", "C", "D"];
  }

  /**
   * The validation with the correct index kept on the option it marks: that option must be
   * non-empty, and the index sent is its position among the non-empty options.
   */
  function Validate(options: seq<string>, correctIndex: int): (v: Verdict)
    ensures v.TooFewOptions? <==> |NonEmpty(options)| < 2
    ensures v.BadCorrectIndex? <==> |NonEmpty(options)| >= 2 && !(0 <= correctIndex < |options| && options[correctIndex] != "")
    ensures v.Accept? ==> v.options == NonEmpty(options)
  {
    var opts := NonEmpty(options);
    if |opts| < 2 then TooFewOptions
    else if correctIndex < 0 || correctIndex >= |options| || options[correctIndex] == "" then BadCorrectIndex
    else Accept(opts, |NonEmpty(options[..correctIndex])|)
  }

  /** An accepted submit sends, at the index it sends, exactly the option that was marked correct. */
  lemma ValidateKeepsAnswer(options: seq<string>, correctIndex: int)
    requires Validate(options, correctIndex).Accept?
    ensures var v := Validate(options, correctIndex);
            0 <= v.correctIndex < |v.options| && v.options[v.correctIndex] == options[correctIndex]
  {
    var p := (o: string) => o != "";
    assert options == options[..correctIndex] + options[correctIndex..];
    FilterAppend(options[..correctIndex], options[correctIndex..], p);
    var rest := options[correctIndex..];
    assert rest == [rest[0]] + rest[1..];
    FilterAppend([rest[0]], rest[1..], p);
    assert Filter([rest[0]], p) == [options[correctIndex]] by {
      assert [rest[0]][1..] == [];
    }
  }

  /** When every option is filled in, the corrected validation agrees with the one as written. */
  lemma ValidateAgreesWithoutGaps(options: seq<string>, correctIndex: int)
    requires forall k :: 0 <= k < |options| ==> options[k] != ""
    ensures Validate(options, correctIndex) == ValidateAsWritten(options, correctIndex)
  {
    var p := (o: string) => o != "";
    FilterAll(options, p);
    if 0 <= correctIndex < |options| {
      FilterAll(options[..correctIndex], p);
    }
  }

  /** The body of the save request; `None` is a field left `undefined`. */
  datatype McqPayload = McqPayload(
    question: string,
    options: seq<string>,
    correctIndex: int,
    explanation: string,
    videoUrl: Option<string>,
    kind: string,
    imageUrl: Option<string>,
    order: Option<int>)

  /** `imageUrl: type === 'image' ? imageUrl : undefined`. */
  function ImageField(kind: string, imageUrl: string): (r: Option<string>)
    ensures r.Some? <==> kind == ImageKind
    ensures r.Some? ==> r.value == imageUrl
  {
    if kind == ImageKind then Some(imageUrl) else None
  }

  /** The save request: an update of an existing MCQ, or a create under the topic. */
  datatype SaveRequest = PutMcq(topicId: string, mcqId: string, body: McqPayload) | PostMcq(topicId: string, body: McqPayload)
}
