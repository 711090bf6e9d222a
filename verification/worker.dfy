/**
 * What the two worker services have in common: the `Notify` calls they issue
 * and the record of one poll cycle.
 */
module Worker {
  import opened Wrappers
  import opened NotifierBase

  /** One `Notify(code, entity[, mode=...])` call on one notifier. `mode` is the keyword
      argument, absent for the match service. */
  datatype Call<E> = Call(notifier: Notifier, code: string, subject: E, mode: Option<nat>)

  /** One pass of a worker's loop: the calls it issued, then the delay it slept. */
  datatype Cycle<E> = Cycle(sent: seq<Call<E>>, delay: int)

  /** The calls of one `_sendUpdate(code)`: a single pass over the notifier list. */
  function Dispatched<E>(notifiers: seq<Notifier>, code: string, subject: E, mode: Option<nat>): (calls: seq<Call<E>>)
    ensures |calls| == |notifiers|
    ensures forall i :: 0 <= i < |calls| ==> calls[i] == Call(notifiers[i], code, subject, mode)
  {
    if notifiers == [] then []
    else [Call(notifiers[0], code, subject, mode)] + Dispatched(notifiers[1..], code, subject, mode)
  }

  /** Every call of one cycle carries the same code: at most one event per cycle. */
  ghost predicate OneCode<E>(sent: seq<Call<E>>)
  {
    forall i, j :: 0 <= i < |sent| && 0 <= j < |sent| ==> sent[i].code == sent[j].code
  }
}
