/** Redis key names of the waiting and processing structures of one ticket
    stock (QueueKey.java). */
module QueueKey {
  import opened JavaLang

  const WaitingQueuePrefix: string := "QUEUE:WAITING:"
  const ProcessingQueuePrefix: string := "QUEUE:PROCESSING:"

  function WaitingQueue(ticketStockId: Int64): (key: string)
    ensures |key| > |WaitingQueuePrefix| && key[..|WaitingQueuePrefix|] == WaitingQueuePrefix
    ensures key[|WaitingQueuePrefix|..] == LongToString(ticketStockId)
  {
    WaitingQueuePrefix + LongToString(ticketStockId)
  }

  function ProcessingQueue(ticketStockId: Int64): (key: string)
    ensures |key| > |ProcessingQueuePrefix| && key[..|ProcessingQueuePrefix|] == ProcessingQueuePrefix
    ensures key[|ProcessingQueuePrefix|..] == LongToString(ticketStockId)
  {
    ProcessingQueuePrefix + LongToString(ticketStockId)
  }

  /** Distinct ticket stocks never share a waiting-queue key. */
  lemma WaitingQueueInjective(a: Int64, b: Int64)
    ensures WaitingQueue(a) == WaitingQueue(b) ==> a == b
  {
    if WaitingQueue(a) == WaitingQueue(b) {
      LongToStringInjective(a, b);
    }
  }

  /** Distinct ticket stocks never share a processing key. */
  lemma ProcessingQueueInjective(a: Int64, b: Int64)
    ensures ProcessingQueue(a) == ProcessingQueue(b) ==> a == b
  {
    if ProcessingQueue(a) == ProcessingQueue(b) {
      LongToStringInjective(a, b);
    }
  }

  /** No waiting key is a processing key, whatever the two ids: the prefixes
      differ at their seventh character ('W' against 'P'). */
  lemma NamespacesDisjoint(a: Int64, b: Int64)
    ensures WaitingQueue(a) != ProcessingQueue(b)
  {
    assert WaitingQueue(a)[6] == 'W';
    assert ProcessingQueue(b)[6] == 'P';
  }
}

/** Names of the distributed locks (LockKey.java). */
module LockKey {
  import opened JavaLang

  const TicketStockLockPrefix: string := "LOCK:TICKET_STOCK:"
  const QueueUserLockPrefix: string := "LOCK:QUEUE:USER:"

  function TicketStock(id: Int64): (key: string)
    ensures |key| > |TicketStockLockPrefix| && key[..|TicketStockLockPrefix|] == TicketStockLockPrefix
    ensures key[|TicketStockLockPrefix|..] == LongToString(id)
  {
    TicketStockLockPrefix + LongToString(id)
  }

  function QueueUser(ticketStockId: Int64, userId: string): (key: string)
    ensures |key| > |QueueUserLockPrefix| + 1 && key[..|QueueUserLockPrefix|] == QueueUserLockPrefix
    ensures key[|QueueUserLockPrefix|..] == LongToString(ticketStockId) + ":" + userId
  {
    QueueUserLockPrefix + LongToString(ticketStockId) + ":" + userId
  }

  lemma TicketStockInjective(a: Int64, b: Int64)
    requires TicketStock(a) == TicketStock(b)
    ensures a == b
  {
    LongToStringInjective(a, b);
  }

  /** The per-user lock names one (ticket stock, user) pair: the decimal id
      holds no ':', so the first ':' after the prefix splits the key. */
  lemma QueueUserInjective(a: Int64, u: string, b: Int64, v: string)
    requires QueueUser(a, u) == QueueUser(b, v)
    ensures a == b && u == v
  {
    var p := |QueueUserLockPrefix|;
    assert LongToString(a) + [':'] + u == QueueUser(a, u)[p..] == LongToString(b) + [':'] + v;
    LongToStringHasNoColon(a);
    LongToStringHasNoColon(b);
    SplitAtSeparator(LongToString(a), u, LongToString(b), v, ':');
    LongToStringInjective(a, b);
  }

  /** A stock lock never collides with a per-user queue lock: the prefixes
      differ at their sixth character ('T' against 'Q'). */
  lemma NamespacesDisjoint(a: Int64, b: Int64, u: string)
    ensures TicketStock(a) != QueueUser(b, u)
  {
    assert TicketStock(a)[5] == 'T';
    assert QueueUser(b, u)[5] == 'Q';
  }
}
