/** RedisQueueService.java: the admission gate in front of ticket purchase.
    For each ticket stock it keeps a waiting line (a Redis sorted set under
    `QueueKey.WaitingQueue(id)`, scored by arrival time) and a processing
    line (a Redis set under `QueueKey.ProcessingQueue(id)`). The Redis store
    is modelled as two maps from key to value; an absent key reads as an
    empty line. The per-user distributed lock is the `lockAcquired` flag:
    when it is not obtained the guarded operation fails and changes nothing. */
module RedisQueueService {
  import opened JavaLang
  import opened Errors
  import opened WaitingQueue
  import opened QueueStatus
  import QueueKey
  import LockKey

  const AlreadyEntered: string := "이미 입장한 사용자입니다."
  const AlreadyWaiting: string := "이미 대기열에 등록된 사용자입니다."

  /** QueueInfo.java: what a user is told about its place in the queue. */
  datatype QueueInfo = QueueInfo(
    userId: string,
    ticketStockId: Int64,
    position: Option<nat>,
    canEnter: bool,
    status: QueueStatus)

  class RedisQueueService {
    /** The sorted sets of the Redis store, by key. */
    var sortedSets: map<string, seq<Entry>>
    /** The sets of the Redis store, by key. */
    var sets: map<string, set<string>>
    /** `queue.max-processing-count`, 100 by default. */
    const maxProcessingCount: Int32

    /** Every stored sorted set is in Redis order and holds a user once. */
    ghost predicate Valid()
      reads this
    {
      forall k :: k in sortedSets ==> Sorted(sortedSets[k]) && DistinctUsers(sortedSets[k])
    }

    constructor (maxProcessingCount: Int32)
      ensures Valid()
      ensures sortedSets == map[] && sets == map[]
      ensures this.maxProcessingCount == maxProcessingCount
    {
      sortedSets := map[];
      sets := map[];
      this.maxProcessingCount := maxProcessingCount;
    }

    /** The waiting line of one ticket stock, front first. */
    function WaitingLine(ticketStockId: Int64): (line: seq<Entry>)
      reads this
      ensures Valid() ==> Sorted(line) && DistinctUsers(line)
    {
      var key := QueueKey.WaitingQueue(ticketStockId);
      if key in sortedSets then sortedSets[key] else []
    }

    /** The users of one ticket stock that may currently buy. */
    function ProcessingUsers(ticketStockId: Int64): set<string>
      reads this
    {
      var key := QueueKey.ProcessingQueue(ticketStockId);
      if key in sets then sets[key] else {}
    }

    /** Neither line of any other ticket stock changed. */
    twostate predicate OthersUnchanged(ticketStockId: Int64)
      reads this
    {
      forall other: Int64 :: other != ticketStockId ==>
        WaitingLine(other) == old(WaitingLine(other)) && ProcessingUsers(other) == old(ProcessingUsers(other))
    }

    /** Store a new waiting line for one ticket stock (`ZADD`/`ZREM` on its key). */
    method PutWaitingLine(ticketStockId: Int64, line: seq<Entry>)
      requires Valid() && Sorted(line) && DistinctUsers(line)
      modifies this
      ensures Valid()
      ensures sets == old(sets)
      ensures WaitingLine(ticketStockId) == line
      ensures ProcessingUsers(ticketStockId) == old(ProcessingUsers(ticketStockId))
      ensures OthersUnchanged(ticketStockId)
    {
      sortedSets := sortedSets[QueueKey.WaitingQueue(ticketStockId) := line];
      forall other: Int64
        ensures other != ticketStockId ==> QueueKey.WaitingQueue(other) != QueueKey.WaitingQueue(ticketStockId)
      {
        QueueKey.WaitingQueueInjective(other, ticketStockId);
      }
    }

    /** Store a new processing set for one ticket stock (`SADD`/`SREM` on its key). */
    method PutProcessingUsers(ticketStockId: Int64, users: set<string>)
      requires Valid()
      modifies this
      ensures Valid()
      ensures sortedSets == old(sortedSets)
      ensures ProcessingUsers(ticketStockId) == users
      ensures OthersUnchanged(ticketStockId)
    {
      sets := sets[QueueKey.ProcessingQueue(ticketStockId) := users];
      forall other: Int64
        ensures other != ticketStockId ==> QueueKey.ProcessingQueue(other) != QueueKey.ProcessingQueue(ticketStockId)
      {
        QueueKey.ProcessingQueueInjective(other, ticketStockId);
      }
    }

    /** `getPosition`: the 0-based rank in the waiting line, which is the
        number of entries ranking ahead; none when the user is not waiting. */
    function GetPosition(ticketStockId: Int64, userId: string): (position: Option<nat>)
      reads this
      requires Valid()
      ensures position.Some? <==> HasUser(WaitingLine(ticketStockId), userId)
      ensures position.Some? ==>
                var line := WaitingLine(ticketStockId);
                position.value < |line| && line[position.value].user == userId &&
                forall j :: 0 <= j < |line| ==> (j < position.value <==> Before(line[j], line[position.value]))
    {
      var line := WaitingLine(ticketStockId);
      var position := IndexOf(line, userId);
      if position.Some? then RankCountsEntriesBefore(line, position.value); position else position
    }

    /** `canEnter`: a processing user may always enter; a waiting user may
        when its rank is below the free slots (`max - processing`, not
        clamped); anyone else may not. */
    function CanEnter(ticketStockId: Int64, userId: string): (b: bool)
      reads this
      requires Valid()
      ensures userId in ProcessingUsers(ticketStockId) ==> b
      ensures userId !in ProcessingUsers(ticketStockId) && !HasUser(WaitingLine(ticketStockId), userId) ==> !b
      ensures userId !in ProcessingUsers(ticketStockId) && HasUser(WaitingLine(ticketStockId), userId) ==>
                (b <==> GetPosition(ticketStockId, userId).value < maxProcessingCount - |ProcessingUsers(ticketStockId)|)
    {
      if userId in ProcessingUsers(ticketStockId) then true
      else
        var processingCount := |ProcessingUsers(ticketStockId)|;
        match GetPosition(ticketStockId, userId)
        case None => false
        case Some(rank) => rank < maxProcessingCount - processingCount
    }

    /** `enqueue`: under the user's lock, refuse a user already processing,
        then one already waiting; otherwise add it with the clock reading
        `now` as score and answer its rank. With a clock later than every
        score in the line, the newcomer goes last. */
    method Enqueue(ticketStockId: Int64, userId: string, now: int, lockAcquired: bool) returns (r: Result<nat>)
      requires Valid()
      modifies this
      ensures Valid()
      ensures sets == old(sets)
      ensures !lockAcquired ==>
                r == Failure(LockAcquisition(LockKey.QueueUser(ticketStockId, userId))) && sortedSets == old(sortedSets)
      ensures lockAcquired && userId in old(ProcessingUsers(ticketStockId)) ==>
                r == Failure(AlreadyInQueue(AlreadyEntered)) && sortedSets == old(sortedSets)
      ensures lockAcquired && userId !in old(ProcessingUsers(ticketStockId)) && HasUser(old(WaitingLine(ticketStockId)), userId) ==>
                r == Failure(AlreadyInQueue(AlreadyWaiting)) && sortedSets == old(sortedSets)
      ensures lockAcquired && userId !in old(ProcessingUsers(ticketStockId)) && !HasUser(old(WaitingLine(ticketStockId)), userId) ==>
                && WaitingLine(ticketStockId) == Insert(old(WaitingLine(ticketStockId)), Entry(userId, now))
                && r == Success(InsertPosition(old(WaitingLine(ticketStockId)), Entry(userId, now)))
                && GetPosition(ticketStockId, userId) == Some(r.value)
                && OthersUnchanged(ticketStockId)
      ensures r.Success? && (forall e :: e in old(WaitingLine(ticketStockId)) ==> e.score < now) ==>
                r.value == |old(WaitingLine(ticketStockId))|
    {
      if !lockAcquired {
        return Failure(LockAcquisition(LockKey.QueueUser(ticketStockId, userId)));
      }
      if userId in ProcessingUsers(ticketStockId) {
        return Failure(AlreadyInQueue(AlreadyEntered));
      }
      var line := WaitingLine(ticketStockId);
      if IndexOf(line, userId).Some? {
        return Failure(AlreadyInQueue(AlreadyWaiting));
      }
      var entry := Entry(userId, now);
      InsertKeepsOrder(line, entry);
      PutWaitingLine(ticketStockId, Insert(line, entry));
      var k := InsertPosition(line, entry);
      assert WaitingLine(ticketStockId)[k].user == userId;
      assert IndexOf(WaitingLine(ticketStockId), userId) == Some(k);
      if forall e :: e in line ==> e.score < now {
        LaterArrivalGoesLast(line, userId, now);
      }
      r := Success(k);
    }

    /** `enter`: under the user's lock, move the user from the waiting line
        to the processing set (whether or not it was waiting). Afterwards it
        is processing and may enter. */
    method Enter(ticketStockId: Int64, userId: string, lockAcquired: bool) returns (r: Outcome)
      requires Valid()
      modifies this
      ensures Valid()
      ensures !lockAcquired ==>
                r == Fail(LockAcquisition(LockKey.QueueUser(ticketStockId, userId))) &&
                sortedSets == old(sortedSets) && sets == old(sets)
      ensures lockAcquired ==>
                && r == Pass
                && WaitingLine(ticketStockId) == RemoveUser(old(WaitingLine(ticketStockId)), userId)
                && ProcessingUsers(ticketStockId) == old(ProcessingUsers(ticketStockId)) + {userId}
                && OthersUnchanged(ticketStockId)
                && GetPosition(ticketStockId, userId).None? && CanEnter(ticketStockId, userId)
    {
      if !lockAcquired {
        return Fail(LockAcquisition(LockKey.QueueUser(ticketStockId, userId)));
      }
      var line := WaitingLine(ticketStockId);
      RemoveKeepsOrder(line, userId);
      PutWaitingLine(ticketStockId, RemoveUser(line, userId));
      PutProcessingUsers(ticketStockId, ProcessingUsers(ticketStockId) + {userId});
      r := Pass;
    }

    /** `complete`: the user leaves the processing set; the waiting line stays. */
    method Complete(ticketStockId: Int64, userId: string)
      requires Valid()
      modifies this
      ensures Valid()
      ensures sortedSets == old(sortedSets)
      ensures ProcessingUsers(ticketStockId) == old(ProcessingUsers(ticketStockId)) - {userId}
      ensures OthersUnchanged(ticketStockId)
    {
      PutProcessingUsers(ticketStockId, ProcessingUsers(ticketStockId) - {userId});
    }

    /** `dequeue`: the user leaves both lines; nobody else moves. */
    method Dequeue(ticketStockId: Int64, userId: string)
      requires Valid()
      modifies this
      ensures Valid()
      ensures WaitingLine(ticketStockId) == RemoveUser(old(WaitingLine(ticketStockId)), userId)
      ensures ProcessingUsers(ticketStockId) == old(ProcessingUsers(ticketStockId)) - {userId}
      ensures OthersUnchanged(ticketStockId)
      ensures GetPosition(ticketStockId, userId).None? && !CanEnter(ticketStockId, userId)
    {
      var line := WaitingLine(ticketStockId);
      RemoveKeepsOrder(line, userId);
      PutWaitingLine(ticketStockId, RemoveUser(line, userId));
      PutProcessingUsers(ticketStockId, ProcessingUsers(ticketStockId) - {userId});
    }

    /** `getQueueInfo`: position, entry permission and the status derived
        from them. The status says exactly where the user is: out of the
        queue when in neither line, processing when only in the processing
        set, and waiting or allowed to enter when it has a rank. */
    function GetQueueInfo(ticketStockId: Int64, userId: string): (info: QueueInfo)
      reads this
      requires Valid()
      ensures info.userId == userId && info.ticketStockId == ticketStockId
      ensures info.position == GetPosition(ticketStockId, userId)
      ensures info.canEnter == CanEnter(ticketStockId, userId)
      ensures info.status == NotInQueue <==>
                !HasUser(WaitingLine(ticketStockId), userId) && userId !in ProcessingUsers(ticketStockId)
      ensures info.status == Processing <==>
                !HasUser(WaitingLine(ticketStockId), userId) && userId in ProcessingUsers(ticketStockId)
      ensures (info.status == Waiting || info.status == QueueStatus.CanEnter) <==> HasUser(WaitingLine(ticketStockId), userId)
      ensures info.status == Waiting ==> !info.canEnter
      ensures info.status == Determine(info.position, info.canEnter)
    {
      var position := GetPosition(ticketStockId, userId);
      var canEnter := CanEnter(ticketStockId, userId);
      QueueInfo(userId, ticketStockId, position, canEnter, Determine(position, canEnter))
    }

    /** `registerAndGetInfo`: enqueue, then report. The report is the one a
        poll right after would give (status waiting or allowed to enter);
        enqueue failures propagate and change nothing. */
    method RegisterAndGetInfo(ticketStockId: Int64, userId: string, now: int, lockAcquired: bool)
      returns (r: Result<QueueInfo>)
      requires Valid()
      modifies this
      ensures Valid()
      ensures sets == old(sets)
      ensures r.Failure? <==>
                !lockAcquired || userId in old(ProcessingUsers(ticketStockId)) ||
                HasUser(old(WaitingLine(ticketStockId)), userId)
      ensures r.Failure? ==>
                sortedSets == old(sortedSets) &&
                r.error == if !lockAcquired then LockAcquisition(LockKey.QueueUser(ticketStockId, userId))
                           else if userId in old(ProcessingUsers(ticketStockId)) then AlreadyInQueue(AlreadyEntered)
                           else AlreadyInQueue(AlreadyWaiting)
      ensures r.Success? ==>
                && WaitingLine(ticketStockId) == Insert(old(WaitingLine(ticketStockId)), Entry(userId, now))
                && OthersUnchanged(ticketStockId)
                && r.value == GetQueueInfo(ticketStockId, userId)
                && r.value.position == Some(InsertPosition(old(WaitingLine(ticketStockId)), Entry(userId, now)))
                && (r.value.status == QueueStatus.CanEnter || r.value.status == Waiting)
    {
      var enqueued := Enqueue(ticketStockId, userId, now, lockAcquired);
      if enqueued.Failure? {
        return Failure(enqueued.error);
      }
      var position := Some(enqueued.value);
      var canEnter := CanEnter(ticketStockId, userId);
      var status := if canEnter then QueueStatus.CanEnter else Waiting;
      r := Success(QueueInfo(userId, ticketStockId, position, canEnter, status));
    }
  }
}
