/** TicketPurchaseService.java: only a user in the processing line may buy;
    the stock is decreased, and whatever the decrease did, the user's
    processing slot is released and the next users are promoted (the
    `finally` block). The decrease is the look-up-by-concert-and-decrease of
    TicketStockTransactionalService; the orchestration's collaborators
    answer through parameters as in QueueOrchestrationService. */
module TicketPurchaseService {
  import opened JavaLang
  import opened Errors
  import opened TicketStockEntity
  import opened TicketStockRepository
  import TicketStockTransactionalService
  import opened QueueOrchestrationService

  const NotInProcessing: string := "처리열에 없는 사용자입니다. 대기열을 통해 입장해주세요."

  /** `purchase`, with `validateQueueAccess` in front: a user outside the
      processing line is refused before anything else happens; otherwise the
      decrease runs, then `onPurchaseComplete` runs on every path, and the
      decrease's outcome is the purchase's outcome, unchanged. */
  method Purchase(stocks: Stocks, concertId: Int64, userId: string, quantity: Int32,
                  inProcessing: bool, permitted: seq<string>, waiting: seq<string>)
    returns (r: Outcome, calls: seq<Call>, ghost found: Option<TicketStock>)
    requires ConcertIdsUnique(stocks)
    modifies stocks.Values
    ensures !inProcessing ==>
              && r == Fail(QueueAccessDenied(NotInProcessing))
              && calls == [IsInProcessing(userId)]
              && Untouched(stocks)
    ensures inProcessing ==>
              && |calls| >= 3
              && calls[..3] == [IsInProcessing(userId), DecreaseByConcertId(quantity), CompleteProcessing(userId)]
              && IsPromotion(calls[3..], permitted, waiting)
              && (found.Some? ==> found.value in stocks.Values && found.value.concertId == concertId)
              && (found.None? <==> forall s :: s in stocks.Values ==> s.concertId != concertId)
              && LookupThenDecrease(stocks, found, quantity, r)
    ensures old(AllValid(stocks)) ==> AllValid(stocks)
  {
    var allowed, query := IsInProcessingQuery(userId, inProcessing);
    calls := query;
    if !allowed {
      r := Fail(QueueAccessDenied(NotInProcessing));
      found := None;
      return;
    }
    calls := calls + [DecreaseByConcertId(quantity)];
    r, found := TicketStockTransactionalService.DecreaseByConcertId(stocks, concertId, quantity);
    var completion := OnPurchaseComplete(userId, permitted, waiting);
    calls := calls + completion;
    assert calls[2..] == completion;
    assert calls[3..] == completion[1..];
  }
}
