/**
 * OSPE (objectively structured practical examination) data shared by the editors and the
 * attempt page: the question type names and the shape an OSPE has when it is fetched,
 * where every field may be missing.
 */
module Ospe {
  import opened Wrappers
  import opened Seqs

  const TextMcq: string := "text_mcq"
  const PictureMcq: string := "picture_mcq"
  const GuessUntilCorrect: string := "guess_until_correct"
  const VivaWritten: string := "viva_written"

  /** A fetched question; `None` is a missing field. */
  datatype RawQuestion = RawQuestion(
    questionText: Option<string>,
    kind: Option<string>,
    options: Option<seq<string>>,
    correctIndex: Option<int>,
    expectedAnswer: Option<string>,
    imageUrl: Option<string>)

  /** A fetched station. */
  datatype RawStation = RawStation(imageUrl: Option<string>, questions: Option<seq<RawQuestion>>)

  /** A fetched OSPE: the stations shape, or the legacy flat `questions` shape. */
  datatype RawOspe = RawOspe(
    id: string,
    name: Option<string>,
    stations: Option<seq<RawStation>>,
    questions: Option<seq<RawQuestion>>)

  /**
   * `[...(options || []), '', '', ''].slice(0, 4)`: the original options first, then empty
   * slots, up to four entries; a missing list gives three slots.
   */
  function PadOptions(options: Option<seq<string>>): (r: seq<string>)
    ensures var o := options.GetOr([]);
            |r| == (if |o| + 3 < 4 then |o| + 3 else 4)
            && forall k :: 0 <= k < |r| ==> r[k] == (if k < |o| then o[k] else "")
  {
    Slice(options.GetOr([]) + ["", "", ""], 0, 4)
  }

  /** A padded list has three slots exactly when the original was missing or empty. */
  lemma PadOptionsLength(options: Option<seq<string>>)
    ensures 3 <= |PadOptions(options)| <= 4
    ensures |PadOptions(options)| == 3 <==> |options.GetOr([])| == 0
  {
  }
}
