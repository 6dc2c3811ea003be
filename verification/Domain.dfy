/** Request life cycle: the states of a location request and the transitions the domain layer permits. */
module Domain {

  datatype Option<+T> = None | Some(value: T)

  datatype State = Queued | Resolving | Locating | Completed | Failed | Cancelled | Expired | Indeterminate {

    predicate Terminal() {
      Completed? || Failed? || Cancelled? || Expired? || Indeterminate?
    }

    /** Held by a worker iteration, or left behind by one that died. */
    predicate Active() {
      this == Resolving || this == Locating
    }
  }

  /** failure_code values; NoCode is the empty string a request is created with. */
  datatype Code =
    | NoCode | TemporarilyUnavailable | ShutdownInterrupted | NetworkFailure | NoImmediateResult | CancelledByClient

  predicate CanTransition(from: State, to: State) {
    if from == to || from.Terminal() then false
    else match from
      case Queued => to.Resolving? || to.Cancelled? || to.Expired? || to.Failed? || to.Indeterminate?
      case Resolving => to.Locating? || to.Queued? || to.Cancelled? || to.Expired? || to.Failed? || to.Indeterminate?
      case Locating => to.Completed? || to.Queued? || to.Cancelled? || to.Expired? || to.Failed? || to.Indeterminate?
      case _ => false
  }

  /**
    The life cycle the transitions allow: terminal states are those without a way out; any other can be
    cancelled, expired, failed or left indeterminate; and the way to completion leads from the queue through
    resolving and locating, each of which can only go back to the queue or one step on.
   */
  lemma LifeCycle(from: State, to: State)
    ensures from.Terminal() <==> forall s: State :: !CanTransition(from, s)
    ensures from.Terminal() <==> from in {Completed, Failed, Cancelled, Expired, Indeterminate}
    ensures to in {Cancelled, Expired, Failed, Indeterminate} ==> (CanTransition(from, to) <==> !from.Terminal())
    ensures CanTransition(from, Completed) <==> from == Locating
    ensures CanTransition(from, Locating) <==> from == Resolving
    ensures CanTransition(from, Resolving) <==> from == Queued
    ensures CanTransition(from, Queued) <==> from == Resolving || from == Locating
  {
    assert from.Terminal() || CanTransition(from, Failed);
  }
}
