/**
 * The telemetry log: one `seconds,rpm` record per enabled tick, appended to
 * the CSV file and never rewritten.
 */
module Telemetry {

  /** One record: time since program start and the measured velocity in RPM. */
  datatype Sample = Sample(seconds: real, rpm: real)

  /** The time column never goes backward. */
  predicate TimesNonDecreasing(log: seq<Sample>)
  {
    forall i, j :: 0 <= i < j < |log| ==> log[i].seconds <= log[j].seconds
  }

  /** Every record of `later` is no earlier than every record of `earlier`. */
  predicate NotBefore(earlier: seq<Sample>, later: seq<Sample>)
  {
    earlier == [] || later == [] || earlier[|earlier| - 1].seconds <= later[0].seconds
  }

  /** Two time-ordered logs, the second starting no earlier than the first ends, concatenate to a time-ordered log. */
  lemma ConcatKeepsOrder(earlier: seq<Sample>, later: seq<Sample>)
    requires TimesNonDecreasing(earlier) && TimesNonDecreasing(later)
    requires NotBefore(earlier, later)
    ensures TimesNonDecreasing(earlier + later)
  {
    var log := earlier + later;
    forall i, j | 0 <= i < j < |log| ensures log[i].seconds <= log[j].seconds {
      if j < |earlier| {
        assert log[i] == earlier[i] && log[j] == earlier[j];
      } else if i >= |earlier| {
        assert log[i] == later[i - |earlier|] && log[j] == later[j - |earlier|];
      } else {
        assert log[i].seconds <= earlier[|earlier| - 1].seconds;
        assert later[0].seconds <= log[j].seconds;
      }
    }
  }
}
