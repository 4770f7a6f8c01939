/**
 * The Lambda entry point of the ingestion path: every SQS record of a batch
 * is decoded, its events are handed to the service one after another, and
 * the records with at least one failed event make up the partial-batch
 * failure report that the queue retries.
 *
 * The records are processed one after another here, in batch order; the
 * service sees every earlier record's events before a later record's.
 */
module Handler {
  import opened Wrappers
  import opened MachineMessageService
  import opened SqsMessage

  datatype SqsRecord = SqsRecord(messageId: string, body: string)

  datatype BatchItemFailure = BatchItemFailure(itemIdentifier: string)

  /** The decoded events of one record (a Lambda record carries `body`, never `Body`). */
  function RecordMessages(dec: Decoder, r: SqsRecord): seq<MachineMessage> {
    GetMachineMessagesFromSqsMessage(dec, QueueMessage(None, Some(r.body)))
  }

  /** The events of all records, concatenated in record order. */
  function AllMessages(dec: Decoder, records: seq<SqsRecord>): seq<MachineMessage>
    decreases |records|
  {
    if |records| == 0 then []
    else AllMessages(dec, records[..|records| - 1]) + RecordMessages(dec, records[|records| - 1])
  }

  /** Record `i` failed: one of its events, handed to the service after all earlier records' events, did not succeed. */
  predicate RecordFailed(dec: Decoder, svc: Service, before: seq<MachineMessage>, records: seq<SqsRecord>, i: nat)
    requires i < |records|
  {
    !AllSucceed(svc, before + AllMessages(dec, records[..i]), RecordMessages(dec, records[i]))
  }

  /** Which records failed, indexed like `records`. */
  function FailedFlags(dec: Decoder, svc: Service, before: seq<MachineMessage>, records: seq<SqsRecord>)
    : (flags: seq<bool>)
    ensures |flags| == |records|
    ensures forall i :: 0 <= i < |records| ==> (flags[i] <==> RecordFailed(dec, svc, before, records, i))
  {
    seq(|records|, i requires 0 <= i < |records| => RecordFailed(dec, svc, before, records, i))
  }

  /** The entries pushed by `addFailedMessage`: one per flagged record, carrying its `messageId`, in record order. */
  function Report(records: seq<SqsRecord>, failed: seq<bool>): (r: seq<BatchItemFailure>)
    requires |failed| == |records|
    ensures |r| <= |records|
    ensures r == [] <==> forall i :: 0 <= i < |records| ==> !failed[i]
    decreases |records|
  {
    if |records| == 0 then []
    else
      var n := |records| - 1;
      Report(records[..n], failed[..n]) + if failed[n] then [BatchItemFailure(records[n].messageId)] else []
  }

  /** The failure report of a batch. */
  function FailureReport(dec: Decoder, svc: Service, before: seq<MachineMessage>, records: seq<SqsRecord>)
    : (r: seq<BatchItemFailure>)
    ensures |r| <= |records|
    ensures r == [] <==> forall i :: 0 <= i < |records| ==> !RecordFailed(dec, svc, before, records, i)
  {
    Report(records, FailedFlags(dec, svc, before, records))
  }

  /**
   * One record's task: hand every decoded event to the service in order,
   * carrying on after a failure, and tell whether all of them succeeded.
   * `calls` is what the service was handed, in order.
   */
  method ProcessRecord(dec: Decoder, svc: Service, before: seq<MachineMessage>, record: SqsRecord)
    returns (result: bool, calls: seq<MachineMessage>)
    ensures calls == RecordMessages(dec, record)
    ensures result == AllSucceed(svc, before, calls)
  {
    var machineMessages := RecordMessages(dec, record);
    result, calls := ProcessEvents(svc, before, machineMessages);
  }

  /**
   * The `for await` loop of a record's task over its decoded events: a
   * resolved `false` or a rejection sets the result to false, and the loop
   * goes on with the next event.
   */
  method ProcessEvents(svc: Service, before: seq<MachineMessage>, machineMessages: seq<MachineMessage>)
    returns (result: bool, calls: seq<MachineMessage>)
    ensures calls == machineMessages
    ensures result == AllSucceed(svc, before, calls)
  {
    result := true;
    calls := [];
    var i := 0;
    while i < |machineMessages|
      invariant 0 <= i <= |machineMessages|
      invariant calls == machineMessages[..i]
      invariant result == AllSucceed(svc, before, machineMessages[..i])
    {
      var machineMessage := machineMessages[i];
      var outcome := svc.handleMessage(before + calls, machineMessage);
      match outcome {
        case Returned(ok) =>
          if !ok {
            result := false;
          }
        case Threw =>
          result := false;
      }
      AllSucceedExtend(svc, before, machineMessages, i);
      calls := calls + [machineMessage];
      i := i + 1;
    }
    assert machineMessages[..i] == machineMessages;
  }

  /**
   * `handler`: process every record and collect `batchItemFailures`; `calls`
   * is every event handed to the service, record after record.
   */
  method HandleBatch(dec: Decoder, svc: Service, before: seq<MachineMessage>, records: seq<SqsRecord>)
    returns (batchItemFailures: seq<BatchItemFailure>, calls: seq<MachineMessage>)
    ensures calls == AllMessages(dec, records)
    ensures batchItemFailures == FailureReport(dec, svc, before, records)
  {
    var failedMessages: seq<BatchItemFailure> := [];
    ghost var flags := FailedFlags(dec, svc, before, records);
    calls := [];
    var i := 0;
    while i < |records|
      invariant 0 <= i <= |records|
      invariant calls == AllMessages(dec, records[..i])
      invariant failedMessages == Report(records[..i], flags[..i])
    {
      var message := records[i];
      var result, recordCalls := ProcessRecord(dec, svc, before + calls, message);
      ReportStep(records, flags, i);
      if !result {
        failedMessages := failedMessages + [BatchItemFailure(message.messageId)];
      }
      AllMessagesStep(dec, records, i, calls, recordCalls);
      calls := calls + recordCalls;
      i := i + 1;
    }
    assert records[..i] == records && flags[..i] == flags;
    batchItemFailures := failedMessages;
  }

  /** One more record appends its events. */
  lemma AllMessagesStep(dec: Decoder, records: seq<SqsRecord>, i: nat,
                        prefix: seq<MachineMessage>, next: seq<MachineMessage>)
    requires i < |records|
    requires prefix == AllMessages(dec, records[..i]) && next == RecordMessages(dec, records[i])
    ensures AllMessages(dec, records[..i + 1]) == prefix + next
  {
    assert records[..i + 1][..i] == records[..i];
  }

  /** Record `i`'s flag is the negation of its task's result. */
  lemma FlagAt(dec: Decoder, svc: Service, before: seq<MachineMessage>, records: seq<SqsRecord>,
               i: nat, prefix: seq<MachineMessage>, result: bool)
    requires i < |records|
    requires prefix == AllMessages(dec, records[..i])
    requires result == AllSucceed(svc, before + prefix, RecordMessages(dec, records[i]))
    ensures FailedFlags(dec, svc, before, records)[i] == !result
  {
  }

  /** One more record appends its entry when it is flagged, and nothing otherwise. */
  lemma ReportStep(records: seq<SqsRecord>, failed: seq<bool>, i: nat)
    requires i < |records| == |failed|
    ensures Report(records[..i + 1], failed[..i + 1])
         == Report(records[..i], failed[..i]) + if failed[i] then [BatchItemFailure(records[i].messageId)] else []
  {
    assert records[..i + 1][..i] == records[..i] && failed[..i + 1][..i] == failed[..i];
  }

  /** An id is in the report iff some flagged record carries it. */
  lemma {:induction false} ReportMembership(records: seq<SqsRecord>, failed: seq<bool>, id: string)
    requires |failed| == |records|
    ensures BatchItemFailure(id) in Report(records, failed)
        <==> exists i :: 0 <= i < |records| && records[i].messageId == id && failed[i]
    decreases |records|
  {
    if |records| > 0 {
      var n := |records| - 1;
      ReportMembership(records[..n], failed[..n], id);
      if BatchItemFailure(id) in Report(records, failed) {
        if BatchItemFailure(id) in Report(records[..n], failed[..n]) {
          var i :| 0 <= i < n && records[..n][i].messageId == id && failed[..n][i];
          assert records[i].messageId == id && failed[i];
        } else {
          assert records[n].messageId == id && failed[n];
        }
      } else {
        forall i | 0 <= i < |records| && records[i].messageId == id ensures !failed[i] {
          if i < n {
            assert records[..n][i] == records[i] && failed[..n][i] == failed[i];
          }
        }
      }
    }
  }

  /** The positions of the flagged records. */
  function FlaggedIndices(failed: seq<bool>): set<nat>
  {
    set i: nat | i < |failed| && failed[i]
  }

  /** Each flagged record contributes exactly one entry and every other record none. */
  lemma {:induction false} ReportLength(records: seq<SqsRecord>, failed: seq<bool>)
    requires |failed| == |records|
    ensures |Report(records, failed)| == |FlaggedIndices(failed)|
    ensures |Report(records, failed)| <= |records|
    decreases |records|
  {
    if |records| == 0 {
      assert FlaggedIndices(failed) == {};
    } else {
      var n := |records| - 1;
      ReportLength(records[..n], failed[..n]);
      var prefix := FlaggedIndices(failed[..n]);
      if failed[n] {
        assert FlaggedIndices(failed) == prefix + {n};
      } else {
        assert FlaggedIndices(failed) == prefix;
      }
    }
  }

  /** The indices of the records that failed. */
  function FailedIndices(dec: Decoder, svc: Service, before: seq<MachineMessage>, records: seq<SqsRecord>)
    : (s: set<nat>)
    ensures forall i: nat :: i in s <==> i < |records| && RecordFailed(dec, svc, before, records, i)
  {
    FlaggedIndices(FailedFlags(dec, svc, before, records))
  }

  /**
   * A `messageId` is reported iff some record carrying it failed, that is,
   * iff one of its events resolved to false or rejected.
   */
  lemma ReportedIffFailed(dec: Decoder, svc: Service, before: seq<MachineMessage>,
                          records: seq<SqsRecord>, id: string)
    ensures BatchItemFailure(id) in FailureReport(dec, svc, before, records)
        <==> exists i :: 0 <= i < |records| && records[i].messageId == id && RecordFailed(dec, svc, before, records, i)
  {
    ReportMembership(records, FailedFlags(dec, svc, before, records), id);
  }

  /**
   * The report has exactly one entry per failed record, so it is never
   * longer than the batch.
   */
  lemma ReportCountsFailedRecords(dec: Decoder, svc: Service, before: seq<MachineMessage>,
                                  records: seq<SqsRecord>)
    ensures |FailureReport(dec, svc, before, records)| == |FailedIndices(dec, svc, before, records)|
    ensures |FailureReport(dec, svc, before, records)| <= |records|
  {
    var flags := FailedFlags(dec, svc, before, records);
    ReportLength(records, flags);
  }

  /** A record that decodes to no events is never reported: its result stays true. */
  lemma EmptyRecordNotReported(dec: Decoder, svc: Service, before: seq<MachineMessage>, records: seq<SqsRecord>, i: nat)
    requires i < |records|
    requires RecordMessages(dec, records[i]) == []
    ensures !RecordFailed(dec, svc, before, records, i)
  {
  }
}
