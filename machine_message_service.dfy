/**
 * The business-logic collaborator of the ingestion handlers: the domain event
 * type `MachineMessage` and the service that handles one event at a time.
 * Both live in a library that is not part of this model, so the event's fields
 * are uninterpreted values and the service is an oracle.
 */
module MachineMessageService {
  import opened JsValues

  /** A decoded telemetry event, as built by `MachineMessage.fromMachineInput`. */
  datatype MachineMessage = MachineMessage(
    cabinetId: Value,
    playfieldId: Value,
    unitId: Value,
    eventType: Value,
    timestamp: Value,
    payload: Value)

  /** What one awaited call of the service does: it resolves to a boolean or it rejects. */
  datatype HandleOutcome = Returned(ok: bool) | Threw

  /** Only a call that resolves to `true` counts as handled. */
  predicate Succeeded(o: HandleOutcome) {
    o == Returned(true)
  }

  /**
   * The service as an oracle. `handleMessage(before, m)` is the outcome of
   * `handleMessage(m)` when the service has already been handed the messages
   * `before`, in that order, so an answer may depend on what the service
   * stored earlier; `failedMessageThrows(before, m)` says whether
   * `handleFailedMessage(m)` rejects after the failed messages `before`.
   */
  datatype Service = Service(
    handleMessage: (seq<MachineMessage>, MachineMessage) -> HandleOutcome,
    failedMessageThrows: (seq<MachineMessage>, MachineMessage) -> bool)

  /** The outcome of handing `events[i]` to the service after `before` and `events[..i]`. */
  function OutcomeAt(svc: Service, before: seq<MachineMessage>, events: seq<MachineMessage>, i: nat): HandleOutcome
    requires i < |events|
  {
    svc.handleMessage(before + events[..i], events[i])
  }

  /** Handing every event of `events` to the service, in order after `before`, succeeds each time. */
  predicate AllSucceed(svc: Service, before: seq<MachineMessage>, events: seq<MachineMessage>) {
    forall i :: 0 <= i < |events| ==> Succeeded(OutcomeAt(svc, before, events, i))
  }

  /** Extending the handled prefix by one event adds exactly that event's outcome. */
  lemma AllSucceedExtend(svc: Service, before: seq<MachineMessage>, events: seq<MachineMessage>, i: nat)
    requires i < |events|
    ensures AllSucceed(svc, before, events[..i + 1])
        <==> AllSucceed(svc, before, events[..i]) && Succeeded(OutcomeAt(svc, before, events, i))
  {
    var longer, shorter := events[..i + 1], events[..i];
    forall j | 0 <= j < i
      ensures OutcomeAt(svc, before, longer, j) == OutcomeAt(svc, before, shorter, j)
    {
      assert longer[..j] == shorter[..j] == events[..j];
    }
    assert longer[..i] == shorter;
    if AllSucceed(svc, before, shorter) && Succeeded(OutcomeAt(svc, before, events, i)) {
      forall j | 0 <= j < i + 1 ensures Succeeded(OutcomeAt(svc, before, longer, j)) {
        if j < i {
          assert Succeeded(OutcomeAt(svc, before, shorter, j));
        }
      }
    }
    if AllSucceed(svc, before, longer) {
      forall j | 0 <= j < i ensures Succeeded(OutcomeAt(svc, before, shorter, j)) {
        assert Succeeded(OutcomeAt(svc, before, longer, j));
      }
      assert Succeeded(OutcomeAt(svc, before, longer, i));
    }
  }
}
