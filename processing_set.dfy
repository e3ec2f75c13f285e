/** The processing line of one concert (ProcessingSet.java): a Redis set of
    the users currently allowed to buy, with a configured capacity. Redis
    deletes a set when its last member goes, so an absent key reads as the
    empty set. */
module ProcessingSet {
  import opened JavaLang

  class ProcessingSet {
    var members: set<string>
    /** `queue.max-processing-count`, 100 by default. */
    const maxProcessingCount: Int32

    constructor (maxProcessingCount: Int32)
      ensures members == {} && this.maxProcessingCount == maxProcessingCount
    {
      members := {};
      this.maxProcessingCount := maxProcessingCount;
    }

    /** `contains`: plain set membership (`SISMEMBER`). */
    function Contains(userId: string): (b: bool)
      reads this
      ensures b <==> userId in members
    {
      userId in members
    }

    /** `size`: `SCARD`, 0 for the absent (empty) set. */
    function Size(): (n: nat)
      reads this
      ensures n == |members|
      ensures n == 0 <==> members == {}
    {
      |members|
    }

    /** `hasCapacity`: fewer members than the configured maximum. */
    function HasCapacity(): (b: bool)
      reads this
      ensures b <==> |members| < maxProcessingCount
    {
      Size() < maxProcessingCount
    }

    /** `remainingCapacity`: `max - size`, not clamped at zero. It is positive
        exactly when there is capacity, and negative once the set has
        overshot the maximum. */
    function RemainingCapacity(): (r: int)
      reads this
      ensures r + |members| == maxProcessingCount
      ensures r > 0 <==> HasCapacity()
      ensures r < 0 <==> |members| > maxProcessingCount
    {
      maxProcessingCount - Size()
    }

    /** `add`: idempotent; a user already present leaves the size as it was. */
    method Add(userId: string)
      modifies this
      ensures members == old(members) + {userId}
      ensures userId in old(members) ==> Size() == old(Size())
      ensures userId !in old(members) ==> Size() == old(Size()) + 1
    {
      if userId in members {
        assert members + {userId} == members;
      }
      members := members + {userId};
    }

    /** `addAll`: `SADD` for each listed user in turn; every listed user is a
        member afterwards and nobody else joins. */
    method AddAll(userIds: seq<string>)
      modifies this
      ensures forall u :: u in members <==> u in old(members) || u in userIds
    {
      for i := 0 to |userIds|
        invariant forall u :: u in members <==> u in old(members) || u in userIds[..i]
      {
        assert userIds[..i + 1] == userIds[..i] + [userIds[i]];
        members := members + {userIds[i]};
      }
      assert userIds[..|userIds|] == userIds;
    }

    /** `remove`: only `userId` leaves. */
    method Remove(userId: string)
      modifies this
      ensures members == old(members) - {userId}
    {
      members := members - {userId};
    }
  }
}

/** QueueStatus.java: the status shown to a user, derived from its waiting
    position (none when it is not waiting) and from `canEnter`. */
module QueueStatus {
  import opened Errors

  datatype QueueStatus = Waiting | CanEnter | Processing | NotInQueue

  /** `determine`: no position means the user is not waiting (processing if
      it may enter, out of the queue otherwise); a position means it waits
      (and may enter or not). */
  function Determine(position: Option<nat>, canEnter: bool): (status: QueueStatus)
    ensures (status == Processing || status == NotInQueue) <==> position.None?
    ensures (status == Processing || status == CanEnter) <==> canEnter
  {
    if position.None? && canEnter then Processing
    else if position.None? then NotInQueue
    else if canEnter then CanEnter
    else Waiting
  }
}
