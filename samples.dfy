/** The fields of a stored data sample that the labeling script reads or writes. */
module Samples {
  import opened Wrappers

  /** A data sample as the remote store lists it. `metadata` is `None` when the
      sample has none (`undefined`). */
  datatype Sample = Sample(
    id: int,
    filename: string,
    labelName: string,  // the `label` field (`label` is a Dafny keyword)
    chartType: string,
    isProcessing: bool,
    metadata: Option<map<string, string>>)

  /** The sort key of `(a, b) => a.id - b.id`. */
  function IdOf(s: Sample): int { s.id }
}
