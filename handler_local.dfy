/**
 * The local stand-in for the Lambda: a queue poller hands each received
 * message to `handleSQSMessage`, and a message that could not be processed
 * to `handleSQSMessageError`. Both walk the decoded events strictly in order.
 */
module LocalHandler {
  import opened MachineMessageService
  import opened SqsMessage

  /**
   * `handleSQSMessage`: `false` straight away when the message decodes to no
   * events; otherwise every event is handed to the service, the loop carries
   * on after a `false` or a rejection, and the answer is `true` iff every call
   * resolved to `true`. `calls` is what the service was handed, in order.
   */
  method HandleSqsMessage(dec: Decoder, svc: Service, before: seq<MachineMessage>, message: QueueMessage)
    returns (response: bool, calls: seq<MachineMessage>)
    ensures calls == GetMachineMessagesFromSqsMessage(dec, message)
    ensures response <==> calls != [] && AllSucceed(svc, before, calls)
  {
    var machineMessages := GetMachineMessagesFromSqsMessage(dec, message);
    if |machineMessages| == 0 {
      return false, machineMessages;
    }
    response, calls := HandleEvents(svc, before, machineMessages);
  }

  /**
   * The `for await` loop of `handleSQSMessage` over a non-empty event list:
   * `response = response && result` after each resolved call, `false` after
   * a rejection, and the loop goes on with the next event.
   */
  method HandleEvents(svc: Service, before: seq<MachineMessage>, machineMessages: seq<MachineMessage>)
    returns (response: bool, calls: seq<MachineMessage>)
    ensures calls == machineMessages
    ensures response == AllSucceed(svc, before, calls)
  {
    calls := [];
    response := true;
    var i := 0;
    while i < |machineMessages|
      invariant 0 <= i <= |machineMessages|
      invariant calls == machineMessages[..i]
      invariant response == AllSucceed(svc, before, machineMessages[..i])
    {
      var machineMessage := machineMessages[i];
      var outcome := svc.handleMessage(before + calls, machineMessage);
      match outcome {
        case Returned(result) =>
          response := response && result;
        case Threw =>
          response := false;
      }
      AllSucceedExtend(svc, before, machineMessages, i);
      calls := calls + [machineMessage];
      i := i + 1;
    }
    assert machineMessages[..i] == machineMessages;
  }

  /** `handleFailedMessage(events[i])`, after the earlier events went the same way, rejects. */
  predicate ThrowsAt(svc: Service, before: seq<MachineMessage>, events: seq<MachineMessage>, i: nat)
    requires i < |events|
  {
    svc.failedMessageThrows(before + events[..i], events[i])
  }

  /** The first position at or after `from` whose failed-message call rejects, or -1. */
  function FirstThrowFrom(svc: Service, before: seq<MachineMessage>, events: seq<MachineMessage>, from: nat)
    : (k: int)
    ensures k == -1 || (from <= k < |events| && ThrowsAt(svc, before, events, k))
    ensures forall j :: from <= j < |events| && (k == -1 || j < k) ==> !ThrowsAt(svc, before, events, j)
    decreases |events| - from
  {
    if from >= |events| then -1
    else if ThrowsAt(svc, before, events, from) then from
    else FirstThrowFrom(svc, before, events, from + 1)
  }

  /**
   * `handleSQSMessageError`: nothing is called when the message decodes to
   * no events; otherwise every event is handed to `handleFailedMessage` in
   * order. Nothing catches a rejection, so the first one ends the loop and
   * rejects the whole call (`threw`): the events after it are never handed
   * over. `calls` is what `handleFailedMessage` was handed, in order.
   */
  method HandleSqsMessageError(dec: Decoder, svc: Service, before: seq<MachineMessage>, message: QueueMessage)
    returns (threw: bool, calls: seq<MachineMessage>)
    ensures var events := GetMachineMessagesFromSqsMessage(dec, message);
      var k := FirstThrowFrom(svc, before, events, 0);
      && (threw <==> k != -1)
      && calls == (if threw then events[..k + 1] else events)
  {
    var machineMessages := GetMachineMessagesFromSqsMessage(dec, message);
    if |machineMessages| == 0 {
      return false, [];
    }
    threw, calls := HandleFailedEvents(svc, before, machineMessages);
  }

  /**
   * The `for await` loop of `handleSQSMessageError`: each event goes to
   * `handleFailedMessage` in order, and the first rejection leaves the loop.
   */
  method HandleFailedEvents(svc: Service, before: seq<MachineMessage>, machineMessages: seq<MachineMessage>)
    returns (threw: bool, calls: seq<MachineMessage>)
    ensures var k := FirstThrowFrom(svc, before, machineMessages, 0);
      && (threw <==> k != -1)
      && calls == (if threw then machineMessages[..k + 1] else machineMessages)
  {
    threw := false;
    calls := [];
    var i := 0;
    while i < |machineMessages|
      invariant 0 <= i <= |machineMessages|
      invariant calls == machineMessages[..i]
      invariant forall j :: 0 <= j < i ==> !ThrowsAt(svc, before, machineMessages, j)
    {
      var machineMessage := machineMessages[i];
      var rejects := svc.failedMessageThrows(before + calls, machineMessage);
      calls := calls + [machineMessage];
      if rejects {
        assert ThrowsAt(svc, before, machineMessages, i);
        threw := true;
        return;
      }
      i := i + 1;
    }
    assert machineMessages[..i] == machineMessages;
  }
}
