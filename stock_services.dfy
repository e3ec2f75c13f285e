/** The ticket stock table as the services see it: the managed records
    keyed by id. `findById` is a map lookup; `findByConcertId` searches the
    records for the one whose concert matches. */
module TicketStockRepository {
  import opened JavaLang
  import opened Errors
  import opened TicketStockEntity

  type Stocks = map<Int64, TicketStock>

  const NotFound: string := "TicketStock not found"

  /** The stock-concert relation is one-to-one: no two records share a concert. */
  predicate ConcertIdsUnique(stocks: Stocks) {
    forall a, b :: a in stocks.Values && b in stocks.Values && a.concertId == b.concertId ==> a == b
  }

  ghost predicate AllValid(stocks: Stocks)
    reads stocks.Values
  {
    forall s :: s in stocks.Values ==> s.Valid()
  }

  function FindById(stocks: Stocks, id: Int64): (r: Option<TicketStock>)
    ensures r.Some? <==> id in stocks
    ensures r.Some? ==> r.value == stocks[id] && r.value in stocks.Values
  {
    if id in stocks then Some(stocks[id]) else None
  }

  method FindByConcertId(stocks: Stocks, concertId: Int64) returns (r: Option<TicketStock>)
    requires ConcertIdsUnique(stocks)
    ensures r.Some? ==> r.value in stocks.Values && r.value.concertId == concertId
    ensures r.None? <==> forall s :: s in stocks.Values ==> s.concertId != concertId
  {
    if s :| s in stocks.Values && s.concertId == concertId {
      r := Some(s);
    } else {
      r := None;
    }
  }

  /** No record changed. */
  twostate predicate Untouched(stocks: Stocks)
    reads stocks.Values
  {
    forall t :: t in stocks.Values ==>
      t.remainingQuantity == old(t.remainingQuantity) && t.totalQuantity == old(t.totalQuantity)
  }

  /** `target` went through `decreaseQuantity(request)` with outcome `r`, and
      no other record changed. */
  twostate predicate DecreasedOnly(stocks: Stocks, target: TicketStock, request: int, r: Outcome)
    reads stocks.Values, target
  {
    && target.totalQuantity == old(target.totalQuantity)
    && (match Decrease(old(target.remainingQuantity), request)
        case Success(next) => r == Pass && target.remainingQuantity == next
        case Failure(e) => r == Fail(e) && target.remainingQuantity == old(target.remainingQuantity))
    && forall t :: t in stocks.Values && t != target ==>
         t.remainingQuantity == old(t.remainingQuantity) && t.totalQuantity == old(t.totalQuantity)
  }

  /** The common contract of every decrease strategy: not found leaves the
      table as it was, otherwise the record found went through one
      `decreaseQuantity`. */
  twostate predicate LookupThenDecrease(stocks: Stocks, new found: Option<TicketStock>, request: int, r: Outcome)
    reads stocks.Values
  {
    match found
    case None => r == Fail(IllegalArgument(NotFound)) && Untouched(stocks)
    case Some(s) => s in stocks.Values && DecreasedOnly(stocks, s, request, r)
  }
}

/** TicketStockTransactionalService.java: look the record up by concert and
    decrease it. */
module TicketStockTransactionalService {
  import opened JavaLang
  import opened Errors
  import opened TicketStockEntity
  import opened TicketStockRepository

  method DecreaseByConcertId(stocks: Stocks, concertId: Int64, requestQuantity: Int32)
    returns (r: Outcome, ghost found: Option<TicketStock>)
    requires ConcertIdsUnique(stocks)
    modifies stocks.Values
    ensures found.Some? ==> found.value in stocks.Values && found.value.concertId == concertId
    ensures found.None? <==> forall s :: s in stocks.Values ==> s.concertId != concertId
    ensures LookupThenDecrease(stocks, found, requestQuantity, r)
    ensures old(AllValid(stocks)) ==> AllValid(stocks)
  {
    var ticketStock := FindByConcertId(stocks, concertId);
    found := ticketStock;
    if ticketStock.None? {
      return Fail(IllegalArgument(NotFound)), found;
    }
    r := ticketStock.value.DecreaseQuantity(requestQuantity);
  }
}

/** PessimisticLockTicketStockService.java: the row lock taken by the lookup
    only serialises concurrent callers, so sequentially this is a lookup by
    id and a decrease. */
module PessimisticLockTicketStockService {
  import opened JavaLang
  import opened Errors
  import opened TicketStockEntity
  import opened TicketStockRepository

  method Decrease(stocks: Stocks, ticketStockId: Int64, requestQuantity: Int32)
    returns (r: Outcome)
    modifies stocks.Values
    ensures LookupThenDecrease(stocks, FindById(stocks, ticketStockId), requestQuantity, r)
    ensures old(AllValid(stocks)) ==> AllValid(stocks)
  {
    var found := FindById(stocks, ticketStockId);
    if found.None? {
      return Fail(IllegalArgument(NotFound));
    }
    r := found.value.DecreaseQuantity(requestQuantity);
  }
}

/** TicketStockService.java: the `synchronized` lookup by id and decrease;
    the monitor only serialises callers within one process. */
module TicketStockService {
  import opened JavaLang
  import opened Errors
  import opened TicketStockEntity
  import opened TicketStockRepository

  method Decrease(stocks: Stocks, ticketStockId: Int64, requestQuantity: Int32)
    returns (r: Outcome)
    modifies stocks.Values
    ensures LookupThenDecrease(stocks, FindById(stocks, ticketStockId), requestQuantity, r)
    ensures old(AllValid(stocks)) ==> AllValid(stocks)
  {
    var ticketStock := FindById(stocks, ticketStockId);
    if ticketStock.None? {
      return Fail(IllegalArgument(NotFound));
    }
    r := ticketStock.value.DecreaseQuantity(requestQuantity);
  }
}

/** OptimisticLockTicketStockService.java: the `@Retryable` read-modify-write
    as an explicit loop. `conflicts[i]` says whether the commit of attempt
    `i` (0-based) hits an optimistic-lock conflict; a conflicting attempt is
    rolled back. Attempts are retried only on such conflicts, at most five
    times, then the `@Recover` handlers turn the conflict into an
    `IllegalStateException`. */
module OptimisticLockTicketStockService {
  import opened JavaLang
  import opened Errors
  import opened TicketStockEntity
  import opened TicketStockRepository

  const MaxAttempts: nat := 5
  const InitialBackoffMillis: nat := 30
  const BackoffMultiplier: nat := 2

  function RetryExhaustedMessage(concertId: Int64): string {
    "최대 재시도 횟수를 초과했습니다. concertId: " + LongToString(concertId)
  }

  function Pow(base: nat, exp: nat): nat {
    if exp == 0 then 1 else base * Pow(base, exp - 1)
  }

  /** The delay slept before retry number `retry + 1`: 30 ms, doubling. */
  function Backoff(retry: nat): nat {
    InitialBackoffMillis * Pow(BackoffMultiplier, retry)
  }

  predicate Conflicts(conflicts: seq<bool>, attempt: nat) {
    attempt < |conflicts| && conflicts[attempt]
  }

  /** The number of attempts the retry loop makes when the decrease itself
      succeeds: up to and including the first one that commits, or all of
      them. */
  function AttemptsUntilCommit(conflicts: seq<bool>, from: nat): (n: nat)
    requires from < MaxAttempts
    ensures from < n <= MaxAttempts
    ensures n < MaxAttempts ==> !Conflicts(conflicts, n - 1)
    ensures forall j :: from <= j < n - 1 ==> Conflicts(conflicts, j)
    decreases MaxAttempts - from
  {
    if !Conflicts(conflicts, from) || from + 1 == MaxAttempts then from + 1
    else AttemptsUntilCommit(conflicts, from + 1)
  }

  method DecreaseByConcertId(stocks: Stocks, concertId: Int64, requestQuantity: Int32, conflicts: seq<bool>)
    returns (r: Outcome, attempts: nat, backoffs: seq<nat>, ghost found: Option<TicketStock>)
    requires ConcertIdsUnique(stocks)
    modifies stocks.Values
    ensures 1 <= attempts <= MaxAttempts
    ensures |backoffs| == attempts - 1
    ensures forall j :: 0 <= j < |backoffs| ==> backoffs[j] == Backoff(j)
    ensures found.Some? ==> found.value in stocks.Values && found.value.concertId == concertId
    ensures found.None? <==> forall s :: s in stocks.Values ==> s.concertId != concertId
    // not found: IllegalArgumentException on the first attempt, nothing retried
    ensures found.None? ==> r == Fail(IllegalArgument(NotFound)) && attempts == 1 && Untouched(stocks)
    // the decrease itself fails: propagated from the first attempt, nothing retried
    ensures found.Some? && Decrease(old(found.value.remainingQuantity), requestQuantity).Failure? ==>
              attempts == 1 && DecreasedOnly(stocks, found.value, requestQuantity, r)
    // the decrease succeeds: retried while commits conflict
    ensures found.Some? && Decrease(old(found.value.remainingQuantity), requestQuantity).Success? ==>
              attempts == AttemptsUntilCommit(conflicts, 0) &&
              if Conflicts(conflicts, attempts - 1) then
                r == Fail(IllegalState(RetryExhaustedMessage(concertId))) && Untouched(stocks)
              else
                DecreasedOnly(stocks, found.value, requestQuantity, r)
    ensures old(AllValid(stocks)) ==> AllValid(stocks)
  {
    attempts, backoffs := 1, [];
    var delay := InitialBackoffMillis;
    while true
      invariant 1 <= attempts <= MaxAttempts
      invariant |backoffs| == attempts - 1 && delay == Backoff(attempts - 1)
      invariant forall j :: 0 <= j < |backoffs| ==> backoffs[j] == Backoff(j)
      invariant forall j :: 0 <= j < attempts - 1 ==> Conflicts(conflicts, j)
      invariant Untouched(stocks)
      invariant attempts > 1 ==> exists t :: t in stocks.Values && t.concertId == concertId &&
                                  Decrease(old(t.remainingQuantity), requestQuantity).Success?
      decreases MaxAttempts - attempts
    {
      var lookup := FindByConcertId(stocks, concertId);
      found := lookup;
      if lookup.None? {
        return Fail(IllegalArgument(NotFound)), attempts, backoffs, found;
      }
      var ticketStock := lookup.value;
      var before := ticketStock.remainingQuantity;
      r := ticketStock.DecreaseQuantity(requestQuantity);
      if r.Fail? {
        return;
      }
      if !Conflicts(conflicts, attempts - 1) {
        AttemptsStopAtCommit(conflicts, attempts);
        return;
      }
      // the conflicting transaction rolls back
      ticketStock.remainingQuantity := before;
      if attempts == MaxAttempts {
        AttemptsStopAtCommit(conflicts, attempts);
        return Fail(IllegalState(RetryExhaustedMessage(concertId))), attempts, backoffs, found;
      }
      backoffs := backoffs + [delay];
      delay := delay * BackoffMultiplier;
      attempts := attempts + 1;
    }
  }

  /** The loop stops at attempt `n` exactly when `AttemptsUntilCommit` says so. */
  lemma AttemptsStopAtCommit(conflicts: seq<bool>, n: nat)
    requires 1 <= n <= MaxAttempts
    requires forall j :: 0 <= j < n - 1 ==> Conflicts(conflicts, j)
    requires !Conflicts(conflicts, n - 1) || n == MaxAttempts
    ensures AttemptsUntilCommit(conflicts, 0) == n
  {
    // A direct consequence of the contract of `AttemptsUntilCommit`, which
    // already pins down the first attempt that commits.
  }
}
