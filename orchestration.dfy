/** QueueOrchestrationService.java: sequences the queue service and the
    event registry. The queue-service operations it calls
    (`enterWaitingQueue`, `hasProcessingCapacity`, `permitProcessing`,
    `getWaitingUsers`, `completeProcessing`, `removeFromQueue`,
    `isInProcessing`) have no body in this code base, so their answers are
    parameters; every call the orchestration makes, on either collaborator,
    is recorded in order in the returned trace. All calls of one invocation
    concern the same concert id, which the trace leaves implicit. */
module QueueOrchestrationService {
  import opened Errors
  import opened SseEmitterService

  datatype Call =
    | EnterWaitingQueue(userId: string)
    | HasProcessingCapacity
    | PermitProcessing
    | GetWaitingUsers
    | CompleteProcessing(userId: string)
    | RemoveFromQueue(userId: string)
    | IsInProcessing(userId: string)
    | CreateEmitter(userId: string)
    | SendEvent(userId: string, eventType: EventType, data: EventData)
    | CompleteEmitter(userId: string)
      // the stock decrease a purchase makes (TicketPurchaseService.java)
    | DecreaseByConcertId(quantity: int)

  /** What `enterNextAndNotify` does, given the users `permitProcessing`
      admitted and the users `getWaitingUsers` then lists: admit; tell each
      admitted user, in order, that it entered and close its channel; list
      the waiting users; tell the i-th of them its position i. */
  predicate IsPromotion(calls: seq<Call>, permitted: seq<string>, waiting: seq<string>) {
    && |calls| == 2 + 2 * |permitted| + |waiting|
    && calls[0] == PermitProcessing
    && (forall i :: 0 <= i < |permitted| ==>
          calls[1 + 2 * i] == SendEvent(permitted[i], Enter, EnterProcessing) &&
          calls[2 + 2 * i] == CompleteEmitter(permitted[i]))
    && calls[1 + 2 * |permitted|] == GetWaitingUsers
    && (forall j :: 0 <= j < |waiting| ==>
          calls[2 + 2 * |permitted| + j] == SendEvent(waiting[j], QueuePosition, PositionData(j)))
  }

  /** `enterNextAndNotify`: its two loops, proved to produce exactly the
      promotion trace. */
  method EnterNextAndNotify(permitted: seq<string>, waiting: seq<string>) returns (calls: seq<Call>)
    ensures IsPromotion(calls, permitted, waiting)
  {
    calls := [PermitProcessing];
    for i := 0 to |permitted|
      invariant |calls| == 1 + 2 * i
      invariant calls[0] == PermitProcessing
      invariant forall k :: 0 <= k < i ==>
                  calls[1 + 2 * k] == SendEvent(permitted[k], Enter, EnterProcessing) &&
                  calls[2 + 2 * k] == CompleteEmitter(permitted[k])
    {
      calls := calls + [SendEvent(permitted[i], Enter, EnterProcessing), CompleteEmitter(permitted[i])];
    }
    calls := calls + [GetWaitingUsers];
    var base := |calls|;
    for j := 0 to |waiting|
      invariant |calls| == base + j
      invariant calls[0] == PermitProcessing && calls[base - 1] == GetWaitingUsers
      invariant forall k :: 0 <= k < |permitted| ==>
                  calls[1 + 2 * k] == SendEvent(permitted[k], Enter, EnterProcessing) &&
                  calls[2 + 2 * k] == CompleteEmitter(permitted[k])
      invariant forall k :: 0 <= k < j ==> calls[base + k] == SendEvent(waiting[k], QueuePosition, PositionData(k))
    {
      calls := calls + [SendEvent(waiting[j], QueuePosition, PositionData(j))];
    }
  }

  /** Every admitted user is told it entered before its channel is closed,
      and before any waiting user hears its new position. */
  lemma EnterPrecedesPositions(calls: seq<Call>, permitted: seq<string>, waiting: seq<string>, i: nat, j: nat)
    requires IsPromotion(calls, permitted, waiting) && i < |permitted| && j < |waiting|
    ensures exists a, b, c :: 0 <= a < b < c < |calls| &&
              calls[a] == SendEvent(permitted[i], Enter, EnterProcessing) &&
              calls[b] == CompleteEmitter(permitted[i]) &&
              calls[c] == SendEvent(waiting[j], QueuePosition, PositionData(j))
  {
    var a, b, c := 1 + 2 * i, 2 + 2 * i, 2 + 2 * |permitted| + j;
    assert calls[a] == SendEvent(permitted[i], Enter, EnterProcessing);
    assert calls[b] == CompleteEmitter(permitted[i]);
    assert calls[c] == SendEvent(waiting[j], QueuePosition, PositionData(j));
  }

  /** `registerAndSubscribe`: enqueue (its failure propagates before
      anything else happens), open the channel, then either promote when
      there is capacity, or tell the registrant its position. The channel
      returned is the one `createEmitter` opened. */
  method RegisterAndSubscribe(userId: string, enqueued: Result<int>, created: Channel, hasCapacity: bool,
                              permitted: seq<string>, waiting: seq<string>)
    returns (r: Result<Channel>, calls: seq<Call>)
    ensures enqueued.Failure? ==> r == Failure(enqueued.error) && calls == [EnterWaitingQueue(userId)]
    ensures enqueued.Success? ==>
              && r == Success(created)
              && |calls| >= 3
              && calls[..3] == [EnterWaitingQueue(userId), CreateEmitter(userId), HasProcessingCapacity]
              && (hasCapacity ==> IsPromotion(calls[3..], permitted, waiting))
              && (!hasCapacity ==> calls[3..] == [SendEvent(userId, QueuePosition, PositionData(enqueued.value))])
  {
    calls := [EnterWaitingQueue(userId)];
    if enqueued.Failure? {
      return Failure(enqueued.error), calls;
    }
    var position := enqueued.value;
    calls := calls + [CreateEmitter(userId), HasProcessingCapacity];
    if hasCapacity {
      var promotion := EnterNextAndNotify(permitted, waiting);
      calls := calls + promotion;
      assert calls[3..] == promotion;
    } else {
      calls := calls + [SendEvent(userId, QueuePosition, PositionData(position))];
    }
    r := Success(created);
  }

  /** `onPurchaseComplete`: leave the processing set first, then promote. */
  method OnPurchaseComplete(userId: string, permitted: seq<string>, waiting: seq<string>) returns (calls: seq<Call>)
    ensures |calls| >= 1 && calls[0] == CompleteProcessing(userId)
    ensures IsPromotion(calls[1..], permitted, waiting)
  {
    var promotion := EnterNextAndNotify(permitted, waiting);
    calls := [CompleteProcessing(userId)] + promotion;
    assert calls[1..] == promotion;
  }

  /** `isInProcessing`: a pure delegation; the only call is the query. */
  method IsInProcessingQuery(userId: string, inProcessing: bool) returns (b: bool, calls: seq<Call>)
    ensures b == inProcessing
    ensures calls == [IsInProcessing(userId)]
  {
    b := inProcessing;
    calls := [IsInProcessing(userId)];
  }

  /** `onCancel`: leave both lines, close the canceller's channel, then
      promote. */
  method OnCancel(userId: string, permitted: seq<string>, waiting: seq<string>) returns (calls: seq<Call>)
    ensures |calls| >= 2 && calls[..2] == [RemoveFromQueue(userId), CompleteEmitter(userId)]
    ensures IsPromotion(calls[2..], permitted, waiting)
  {
    var promotion := EnterNextAndNotify(permitted, waiting);
    calls := [RemoveFromQueue(userId), CompleteEmitter(userId)] + promotion;
    assert calls[2..] == promotion;
  }
}
