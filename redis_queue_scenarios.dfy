/** Sequential runs of RedisQueueService on a fresh store, with locks always
    obtained: the register-enter-complete flow, repeated entry, and the
    backfill of free slots after completions. */
module RedisQueueScenarios {
  import opened JavaLang
  import opened Errors
  import opened WaitingQueue
  import opened QueueStatus
  import opened RedisQueueService

  predicate Distinct(users: seq<string>) {
    forall i, j :: 0 <= i < j < |users| ==> users[i] != users[j]
  }

  /** Register, poll, enter, complete: position 0 and allowed to enter, then
      processing, then out of the queue. */
  method RegisterEnterComplete(ticketStockId: Int64, userId: string, now: int, maxProcessingCount: Int32)
    returns (registered: Result<QueueInfo>, polled: QueueInfo, entered: QueueInfo, completed: QueueInfo)
    requires maxProcessingCount >= 1
    ensures registered.Success? && registered.value.position == Some(0) && registered.value.status == QueueStatus.CanEnter
    ensures polled.canEnter && polled.status == QueueStatus.CanEnter
    ensures entered.status == Processing
    ensures completed.status == NotInQueue
  {
    var service := new RedisQueueService(maxProcessingCount);
    registered := service.RegisterAndGetInfo(ticketStockId, userId, now, true);
    assert service.WaitingLine(ticketStockId) == [Entry(userId, now)];
    polled := service.GetQueueInfo(ticketStockId, userId);
    var r := service.Enter(ticketStockId, userId, true);
    entered := service.GetQueueInfo(ticketStockId, userId);
    service.Complete(ticketStockId, userId);
    completed := service.GetQueueInfo(ticketStockId, userId);
  }

  /** Entering again changes nothing: one processing member, nobody waiting. */
  method RepeatedEnter(ticketStockId: Int64, userId: string, now: int, maxProcessingCount: Int32, times: nat)
    returns (processingCount: nat, waitingCount: nat)
    requires times >= 1
    ensures processingCount == 1 && waitingCount == 0
  {
    var service := new RedisQueueService(maxProcessingCount);
    EnqueueAndEnter(service, ticketStockId, userId, now);
    for i := 1 to times
      invariant fresh(service) && service.Valid()
      invariant service.WaitingLine(ticketStockId) == [] && service.ProcessingUsers(ticketStockId) == {userId}
    {
      var r := service.Enter(ticketStockId, userId, true);
    }
    processingCount := |service.ProcessingUsers(ticketStockId)|;
    waitingCount := |service.WaitingLine(ticketStockId)|;
  }

  /** A user that is in neither line enqueues and enters: it ends up
      processing, and the empty waiting line stays empty. */
  method EnqueueAndEnter(service: RedisQueueService, ticketStockId: Int64, userId: string, now: int)
    requires service.Valid() && service.WaitingLine(ticketStockId) == []
    requires userId !in service.ProcessingUsers(ticketStockId)
    modifies service
    ensures service.Valid() && service.WaitingLine(ticketStockId) == []
    ensures service.ProcessingUsers(ticketStockId) == old(service.ProcessingUsers(ticketStockId)) + {userId}
  {
    var r := service.Enqueue(ticketStockId, userId, now, true);
    assert service.WaitingLine(ticketStockId) == [Entry(userId, now)];
    var e := service.Enter(ticketStockId, userId, true);
  }

  /** The waiting line the users of `waiting` form when they arrive one
      after another from clock reading `start`. */
  function Arrivals(waiting: seq<string>, start: int): (line: seq<Entry>)
    ensures |line| == |waiting|
    ensures forall k :: 0 <= k < |waiting| ==> line[k] == Entry(waiting[k], start + k)
  {
    seq(|waiting|, k requires 0 <= k < |waiting| => Entry(waiting[k], start + k))
  }

  /** Every listed user enqueues and enters at once. */
  method FillProcessing(service: RedisQueueService, ticketStockId: Int64, processing: seq<string>, clock: int)
    requires service.Valid() && Distinct(processing)
    requires service.WaitingLine(ticketStockId) == [] && service.ProcessingUsers(ticketStockId) == {}
    modifies service
    ensures service.Valid() && service.WaitingLine(ticketStockId) == []
    ensures forall u :: u in service.ProcessingUsers(ticketStockId) <==> u in processing
    ensures |service.ProcessingUsers(ticketStockId)| == |processing|
  {
    for i := 0 to |processing|
      invariant service.Valid()
      invariant service.WaitingLine(ticketStockId) == []
      invariant forall k :: 0 <= k < i ==> processing[k] in service.ProcessingUsers(ticketStockId)
      invariant forall u :: u in service.ProcessingUsers(ticketStockId) ==> exists k :: 0 <= k < i && processing[k] == u
      invariant |service.ProcessingUsers(ticketStockId)| == i
    {
      EnqueueAndEnter(service, ticketStockId, processing[i], clock + i);
    }
  }

  /** The listed users enqueue one after another, none of them processing. */
  method ArriveInOrder(service: RedisQueueService, ticketStockId: Int64, waiting: seq<string>, start: int)
    requires service.Valid() && Distinct(waiting) && service.WaitingLine(ticketStockId) == []
    requires forall u :: u in waiting ==> u !in service.ProcessingUsers(ticketStockId)
    modifies service
    ensures service.Valid() && service.WaitingLine(ticketStockId) == Arrivals(waiting, start)
    ensures service.ProcessingUsers(ticketStockId) == old(service.ProcessingUsers(ticketStockId))
  {
    for j := 0 to |waiting|
      invariant service.Valid()
      invariant service.WaitingLine(ticketStockId) == Arrivals(waiting[..j], start)
      invariant service.ProcessingUsers(ticketStockId) == old(service.ProcessingUsers(ticketStockId))
    {
      var line := service.WaitingLine(ticketStockId);
      assert !HasUser(line, waiting[j]);
      assert forall e :: e in line ==> e.score < start + j;
      ArriveLast(service, ticketStockId, waiting[j], start + j);
      assert Arrivals(waiting[..j + 1], start) == line + [Entry(waiting[j], start + j)];
    }
    assert waiting[..|waiting|] == waiting;
  }

  /** A newcomer arriving after everyone in the line goes last. */
  method ArriveLast(service: RedisQueueService, ticketStockId: Int64, userId: string, now: int)
    requires service.Valid() && userId !in service.ProcessingUsers(ticketStockId)
    requires !HasUser(service.WaitingLine(ticketStockId), userId)
    requires forall e :: e in service.WaitingLine(ticketStockId) ==> e.score < now
    modifies service
    ensures service.Valid()
    ensures service.WaitingLine(ticketStockId) == old(service.WaitingLine(ticketStockId)) + [Entry(userId, now)]
    ensures service.ProcessingUsers(ticketStockId) == old(service.ProcessingUsers(ticketStockId))
  {
    var line := service.WaitingLine(ticketStockId);
    var r := service.Enqueue(ticketStockId, userId, now, true);
    assert InsertPosition(line, Entry(userId, now)) == |line|;
    assert line[..|line|] == line;
  }

  /** The first `completions` listed users complete. */
  method CompleteFirst(service: RedisQueueService, ticketStockId: Int64, processing: seq<string>, completions: nat)
    requires service.Valid() && Distinct(processing) && completions <= |processing|
    requires forall u :: u in service.ProcessingUsers(ticketStockId) <==> u in processing
    requires |service.ProcessingUsers(ticketStockId)| == |processing|
    modifies service
    ensures service.Valid()
    ensures service.WaitingLine(ticketStockId) == old(service.WaitingLine(ticketStockId))
    ensures |service.ProcessingUsers(ticketStockId)| == |processing| - completions
    ensures forall u :: u in service.ProcessingUsers(ticketStockId) ==> u in processing
  {
    ghost var line := service.WaitingLine(ticketStockId);
    for i := 0 to completions
      invariant service.Valid() && service.WaitingLine(ticketStockId) == line
      invariant forall u :: u in service.ProcessingUsers(ticketStockId) ==> u in processing
      invariant forall k :: i <= k < |processing| ==> processing[k] in service.ProcessingUsers(ticketStockId)
      invariant |service.ProcessingUsers(ticketStockId)| == |processing| - i
    {
      service.Complete(ticketStockId, processing[i]);
    }
  }

  /** In a line formed by `Arrivals`, the j-th arrival has position j. */
  lemma ArrivalPosition(service: RedisQueueService, ticketStockId: Int64, waiting: seq<string>, start: int, j: nat)
    requires service.Valid() && Distinct(waiting) && j < |waiting|
    requires service.WaitingLine(ticketStockId) == Arrivals(waiting, start)
    ensures service.GetPosition(ticketStockId, waiting[j]) == Some(j)
  {
    var line := service.WaitingLine(ticketStockId);
    assert line[j].user == waiting[j];
    var p := service.GetPosition(ticketStockId, waiting[j]);
    assert p.Some? && line[p.value].user == waiting[j];
  }

  /** How many of the listed waiting users may enter now: the first
      `slots` of them, when their positions are 0, 1, ... and `slots` users
      fit. */
  method CountAdmitted(service: RedisQueueService, ticketStockId: Int64, waiting: seq<string>, start: int)
    returns (admitted: nat)
    requires service.Valid() && Distinct(waiting)
    requires service.WaitingLine(ticketStockId) == Arrivals(waiting, start)
    requires forall u :: u in waiting ==> u !in service.ProcessingUsers(ticketStockId)
    ensures admitted == Min(if service.maxProcessingCount - |service.ProcessingUsers(ticketStockId)| < 0 then 0
                            else service.maxProcessingCount - |service.ProcessingUsers(ticketStockId)|, |waiting|)
  {
    var slots := service.maxProcessingCount - |service.ProcessingUsers(ticketStockId)|;
    admitted := 0;
    for j := 0 to |waiting|
      invariant admitted == Min(if slots < 0 then 0 else slots, j)
    {
      ArrivalPosition(service, ticketStockId, waiting, start, j);
      if service.CanEnter(ticketStockId, waiting[j]) {
        admitted := admitted + 1;
      }
    }
  }

  /** With the processing line full, no waiting user may enter; once
      `completions` processing users complete, exactly the first
      `completions` waiting users may. */
  method BackfillAfterCompletions(ticketStockId: Int64, maxProcessingCount: Int32, processing: seq<string>,
                                  waiting: seq<string>, completions: nat, clock: int)
    returns (admittedBefore: nat, admittedAfter: nat)
    requires |processing| == maxProcessingCount && completions <= |processing|
    requires Distinct(processing) && Distinct(waiting)
    requires forall u :: u in processing ==> u !in waiting
    ensures admittedBefore == 0
    ensures admittedAfter == Min(completions, |waiting|)
  {
    var service := new RedisQueueService(maxProcessingCount);
    FillProcessing(service, ticketStockId, processing, clock);
    var start := clock + |processing|;
    ArriveInOrder(service, ticketStockId, waiting, start);
    admittedBefore := CountAdmitted(service, ticketStockId, waiting, start);
    CompleteFirst(service, ticketStockId, processing, completions);
    admittedAfter := CountAdmitted(service, ticketStockId, waiting, start);
  }
}
