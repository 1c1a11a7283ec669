/** Failure-carrying datatypes shared by every module of the quiz backend model. */
module Base {

  /** A value that may be absent (a JavaScript `null`/`undefined` result). */
  datatype Option<+T> = None | Some(value: T)

  /** The outcome of an operation that either returns a value or throws. */
  datatype Result<+T, +E> = Ok(value: T) | Err(error: E)

  /** Index of the first maximal element of `xs`; this is what a stable
      descending sort followed by taking element 0 selects, and what a chain
      of `if (max === x0) … else if (max === x1) …` tests selects. */
  function FirstMaxIndex(xs: seq<int>): (k: nat)
    requires |xs| > 0
    ensures k < |xs|
    ensures forall j :: 0 <= j < |xs| ==> xs[j] <= xs[k]
    ensures forall j :: 0 <= j < k ==> xs[j] < xs[k]
    decreases |xs|
  {
    if |xs| == 1 then 0
    else
      var k' := FirstMaxIndex(xs[1..]);
      if xs[0] >= xs[1..][k'] then 0 else k' + 1
  }

  /** The first maximal index is unique: any index with the two properties is it. */
  lemma FirstMaxIndexUnique(xs: seq<int>, k: nat)
    requires k < |xs|
    requires forall j :: 0 <= j < |xs| ==> xs[j] <= xs[k]
    requires forall j :: 0 <= j < k ==> xs[j] < xs[k]
    ensures FirstMaxIndex(xs) == k
  {
  }
}
