/**
 * The enable-time target prompt. Each attempt to read a number from the
 * console is abstracted as its outcome: Some(value) when a numeric value was
 * extracted, None when the extraction failed and the rest of the line was
 * discarded before prompting again.
 */
module TargetInput {
  import opened Wrappers

  /** The position of the first attempt that produced a number, if any. */
  function FirstNumeric(attempts: seq<Option<real>>): (r: Option<nat>)
    ensures r.Some? ==> r.value < |attempts| && attempts[r.value].Some?
    ensures r.Some? ==> forall j :: 0 <= j < r.value ==> attempts[j].None?
    ensures r.None? <==> forall j :: 0 <= j < |attempts| ==> attempts[j].None?
  {
    if attempts == [] then None
    else if attempts[0].Some? then Some(0)
    else match FirstNumeric(attempts[1..])
      case None => None
      case Some(k) => Some(k + 1)
  }

}
