/** The notification sink that the services publish to (a WebSocket gateway in the source). */
module Events {
  import opened Types

  datatype Event =
    | AnomalyCreated(anomaly: Anomaly)
    | PolicyDraftCreated(draft: PolicyDraft)
    | PolicyAppliedEvent(draft: PolicyDraft)

  /** The event name passed to the emitter. */
  function EventName(e: Event): string {
    match e
    case AnomalyCreated(_) => "anomaly.created"
    case PolicyDraftCreated(_) => "policy.draft"
    case PolicyAppliedEvent(_) => "policy.applied"
  }

  /** Records every `(eventName, payload)` call, in order. */
  class EventSink {
    var published: seq<Event>

    constructor ()
      ensures published == []
    {
      published := [];
    }

    method Emit(e: Event)
      modifies this
      ensures published == old(published) + [e]
    {
      published := published + [e];
    }
  }
}
