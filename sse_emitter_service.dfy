/** SseEmitterService.java: the registry of open server-sent-event channels,
    one per (concert, user), under the key `concertId + ":" + userId`.
    Channels are abstract handles numbered in creation order. Completing a
    channel and the container later running its completion callback are two
    steps: `complete()` only marks the channel, the callback is what drops
    the registry entry. A send either reaches the client or fails with an
    I/O error; which one is the `sendSucceeds` parameter. */
module SseEmitterService {
  import opened JavaLang

  /** QueueEventType.java: the two event kinds and their wire names. */
  datatype EventType = QueuePosition | Enter

  function EventName(eventType: EventType): (name: string)
    ensures name == (if eventType == QueuePosition then "queue-position" else "enter")
  {
    match eventType
    case QueuePosition => "queue-position"
    case Enter => "enter"
  }

  /** Event payloads: QueuePositionEvent(position) and QueueEnterEvent(status). */
  datatype EventData = PositionData(position: int) | EnterData(status: string)

  const ProcessingStatus: string := "PROCESSING"

  /** QueueEnterEvent.processing(). */
  const EnterProcessing: EventData := EnterData(ProcessingStatus)

  type Channel = nat

  /** One event that reached the client of `channel`. */
  datatype Delivery = Delivery(channel: Channel, name: string, data: EventData)

  /** `buildKey`: the decimal concert id, a ':' and the user id. */
  function BuildKey(concertId: Int64, userId: string): (key: string)
    ensures |key| > |LongToString(concertId)|
    ensures key[..|LongToString(concertId)|] == LongToString(concertId)
    ensures key[|LongToString(concertId)|] == ':'
    ensures key[|LongToString(concertId)| + 1..] == userId
  {
    LongToString(concertId) + ":" + userId
  }

  /** Distinct (concert, user) pairs never share a registry key: the decimal
      id holds no ':', so the first ':' splits the key. */
  lemma BuildKeyInjective(a: Int64, u: string, b: Int64, v: string)
    requires BuildKey(a, u) == BuildKey(b, v)
    ensures a == b && u == v
  {
    LongToStringHasNoColon(a);
    LongToStringHasNoColon(b);
    SplitAtSeparator(LongToString(a), u, LongToString(b), v, ':');
    LongToStringInjective(a, b);
  }

  class SseEmitterService {
    /** The registry: at most one channel per key. */
    var emitters: map<string, Channel>
    /** The handle the next created channel gets. */
    var nextChannel: Channel
    /** Channels on which `complete()` was called. */
    var completed: set<Channel>
    /** Every event delivered so far, in order. */
    var delivered: seq<Delivery>
    /** `queue.sse-timeout-milliseconds`, 600000 by default. */
    const sseTimeoutMilliseconds: Int64

    /** Handles are issued once: every known channel is older than the next
        handle, and no channel is registered under two keys. */
    ghost predicate Valid()
      reads this
    {
      && (forall k :: k in emitters ==> emitters[k] < nextChannel)
      && (forall c :: c in completed ==> c < nextChannel)
      && (forall k, k' :: k in emitters && k' in emitters && k != k' ==> emitters[k] != emitters[k'])
    }

    constructor (sseTimeoutMilliseconds: Int64)
      ensures Valid()
      ensures emitters == map[] && completed == {} && delivered == [] && nextChannel == 0
      ensures this.sseTimeoutMilliseconds == sseTimeoutMilliseconds
    {
      emitters := map[];
      nextChannel := 0;
      completed := {};
      delivered := [];
      this.sseTimeoutMilliseconds := sseTimeoutMilliseconds;
    }

    /** `createEmitter`: complete and unregister the channel already under
        the key, if any, then register a new channel, distinct from every
        channel seen before. No other key changes. */
    method CreateEmitter(concertId: Int64, userId: string) returns (emitter: Channel)
      requires Valid()
      modifies this
      ensures Valid()
      ensures emitter == old(nextChannel) && nextChannel == old(nextChannel) + 1
      ensures emitter !in old(completed) && forall k :: k in old(emitters) ==> old(emitters)[k] != emitter
      ensures emitters == old(emitters)[BuildKey(concertId, userId) := emitter]
      ensures completed == old(completed) +
                (if BuildKey(concertId, userId) in old(emitters) then {old(emitters)[BuildKey(concertId, userId)]} else {})
      ensures delivered == old(delivered)
    {
      var key := BuildKey(concertId, userId);
      if key in emitters {
        completed := completed + {emitters[key]};
        emitters := emitters - {key};
      }
      emitter := nextChannel;
      nextChannel := nextChannel + 1;
      emitters := emitters[key := emitter];
    }

    /** `sendEvent`: nothing happens for an unregistered key; a delivered
        event keeps the channel, a failed one unregisters it without raising.
        No other key changes. */
    method SendEvent(concertId: Int64, userId: string, eventType: EventType, data: EventData, sendSucceeds: bool)
      requires Valid()
      modifies this
      ensures Valid()
      ensures completed == old(completed) && nextChannel == old(nextChannel)
      ensures emitters - {BuildKey(concertId, userId)} == old(emitters) - {BuildKey(concertId, userId)}
      ensures BuildKey(concertId, userId) !in old(emitters) ==>
                emitters == old(emitters) && delivered == old(delivered)
      ensures BuildKey(concertId, userId) in old(emitters) && sendSucceeds ==>
                && emitters == old(emitters)
                && delivered == old(delivered) +
                     [Delivery(old(emitters)[BuildKey(concertId, userId)], EventName(eventType), data)]
      ensures BuildKey(concertId, userId) in old(emitters) && !sendSucceeds ==>
                emitters == old(emitters) - {BuildKey(concertId, userId)} && delivered == old(delivered)
    {
      var key := BuildKey(concertId, userId);
      if key !in emitters {
        return;
      }
      if sendSucceeds {
        delivered := delivered + [Delivery(emitters[key], EventName(eventType), data)];
      } else {
        emitters := emitters - {key};
      }
    }

    /** `completeEmitter`: complete the registered channel, if any; an
        unregistered key is a no-op, and completing twice is the same as
        once. The registry entry goes when the completion callback runs. */
    method CompleteEmitter(concertId: Int64, userId: string)
      requires Valid()
      modifies this
      ensures Valid()
      ensures emitters == old(emitters) && delivered == old(delivered) && nextChannel == old(nextChannel)
      ensures BuildKey(concertId, userId) !in old(emitters) ==> completed == old(completed)
      ensures BuildKey(concertId, userId) in old(emitters) ==>
                completed == old(completed) + {old(emitters)[BuildKey(concertId, userId)]}
    {
      var key := BuildKey(concertId, userId);
      if key in emitters {
        completed := completed + {emitters[key]};
      }
    }

    /** The completion callback registered for `channel` under `key`, as
        written: it unregisters whatever channel the key holds, which after
        a reconnect is the newer one (see `StaleCompletionDropsNewEmitter`). */
    method CompletionCallback(key: string, channel: Channel)
      requires Valid()
      modifies this
      ensures Valid()
      ensures emitters == old(emitters) - {key}
      ensures completed == old(completed) && delivered == old(delivered) && nextChannel == old(nextChannel)
    {
      emitters := emitters - {key};
    }

    /** The completion callback as evidently intended: it unregisters its own
        channel only, leaving a newer channel under the same key in place. */
    method OwnCompletionCallback(key: string, channel: Channel)
      requires Valid()
      modifies this
      ensures Valid()
      ensures key in old(emitters) && old(emitters)[key] == channel ==> emitters == old(emitters) - {key}
      ensures !(key in old(emitters) && old(emitters)[key] == channel) ==> emitters == old(emitters)
      ensures key in emitters ==> emitters[key] != channel
      ensures completed == old(completed) && delivered == old(delivered) && nextChannel == old(nextChannel)
    {
      if key in emitters && emitters[key] == channel {
        emitters := emitters - {key};
      }
    }

    /** The timeout callback registered for `channel`: it completes the
        channel (its completion callback then unregisters it). */
    method TimeoutCallback(key: string, channel: Channel)
      requires Valid() && channel < nextChannel
      modifies this
      ensures Valid()
      ensures completed == old(completed) + {channel}
      ensures emitters == old(emitters) && delivered == old(delivered) && nextChannel == old(nextChannel)
    {
      completed := completed + {channel};
    }
  }

  /** A reconnect followed by the replaced channel's completion callback:
      the callback as written leaves the key with no registered channel
      although the new channel is open; the intended one keeps the new
      channel registered. */
  method StaleCompletionDropsNewEmitter(concertId: Int64, userId: string)
    returns (first: Channel, second: Channel, keptAsWritten: bool, keptAsIntended: bool)
    ensures first != second
    ensures !keptAsWritten
    ensures keptAsIntended
  {
    var key := BuildKey(concertId, userId);
    var asWritten := new SseEmitterService(600000);
    first := asWritten.CreateEmitter(concertId, userId);
    second := asWritten.CreateEmitter(concertId, userId);
    asWritten.CompletionCallback(key, first);
    keptAsWritten := key in asWritten.emitters;

    var intended := new SseEmitterService(600000);
    var first' := intended.CreateEmitter(concertId, userId);
    var second' := intended.CreateEmitter(concertId, userId);
    intended.OwnCompletionCallback(key, first');
    keptAsIntended := key in intended.emitters && intended.emitters[key] == second';
  }
}
