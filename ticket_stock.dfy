/** The ticket stock record of one concert (TicketStock.java): a total and a
    remaining quantity, validated on construction and decreased in place. */
module TicketStockEntity {
  import opened JavaLang
  import opened Errors

  const TotalMustBeNonNegative: string := "totalQuantity must be >= 0"
  const RemainingMustBeNonNegative: string := "remainingQuantity must be >= 0"
  const RemainingCannotExceedTotal: string := "remainingQuantity cannot exceed totalQuantity"
  const QuantityMustBePositive: string := "quantity must be positive"

  /** The record invariant every decrease keeps. */
  predicate InStock(total: int, remaining: int) {
    0 <= remaining <= total
  }

  /** validateQuantities: the first of its three checks that fails, if any. */
  function ValidateQuantities(total: int, remaining: int): (r: Option<Error>)
    ensures r.None? <==> InStock(total, remaining)
    ensures r.Some? ==> r.value.IllegalArgument?
    ensures total < 0 ==> r == Some(IllegalArgument(TotalMustBeNonNegative))
  {
    if total < 0 then Some(IllegalArgument(TotalMustBeNonNegative))
    else if remaining < 0 then Some(IllegalArgument(RemainingMustBeNonNegative))
    else if remaining > total then Some(IllegalArgument(RemainingCannotExceedTotal))
    else None
  }

  /** decreaseQuantity on the value level: validateDecreaseQuantity, then
      the subtraction. Success exactly when the request is positive and
      covered by the remaining quantity. */
  function Decrease(remaining: int, request: int): (r: Result<int>)
    ensures r.Success? <==> 0 < request <= remaining
    ensures r.Success? ==> r.value == remaining - request && 0 <= r.value < remaining
    ensures request <= 0 ==> r == Failure(IllegalArgument(QuantityMustBePositive))
    ensures 0 < request && remaining < request ==> r == Failure(InsufficientTicketStock(remaining, request))
  {
    if request <= 0 then Failure(IllegalArgument(QuantityMustBePositive))
    else if remaining < request then Failure(InsufficientTicketStock(remaining, request))
    else Success(remaining - request)
  }

  function Sum(s: seq<int>): int {
    if s == [] then 0 else s[0] + Sum(s[1..])
  }

  /** The outcome of a series of decreases run one after another on one
      record: the final remaining quantity and the requests that were
      granted, in order. */
  datatype Run = Run(remaining: int, granted: seq<int>)

  function RunDecreases(remaining: int, requests: seq<int>): (r: Run)
    ensures r.remaining == remaining - Sum(r.granted)
    ensures 0 <= remaining ==> 0 <= r.remaining <= remaining
    ensures |r.granted| <= |requests|
    ensures forall g :: g in r.granted ==> 0 < g
  {
    if requests == [] then Run(remaining, [])
    else
      match Decrease(remaining, requests[0])
      case Success(next) =>
        var rest := RunDecreases(next, requests[1..]);
        Run(rest.remaining, [requests[0]] + rest.granted)
      case Failure(_) => RunDecreases(remaining, requests[1..])
  }

  /** The granted requests are requests of the series: each one granted at
      most as often as it was made. */
  lemma {:induction false} GrantedAreRequests(remaining: int, requests: seq<int>)
    ensures multiset(RunDecreases(remaining, requests).granted) <= multiset(requests)
  {
    if requests != [] {
      assert requests == [requests[0]] + requests[1..];
      match Decrease(remaining, requests[0])
      case Success(next) => GrantedAreRequests(next, requests[1..]);
      case Failure(_) => GrantedAreRequests(remaining, requests[1..]);
    }
  }

  /** k requests of one ticket each. */
  function Ones(k: nat): (s: seq<int>)
    ensures |s| == k && forall i :: 0 <= i < k ==> s[i] == 1
  {
    seq(k, _ => 1)
  }

  /** K requests of one ticket each against R remaining: exactly min(R, K)
      succeed, the others fail, and R - min(R, K) tickets are left. */
  lemma {:induction false} UnitRequestsGrantMin(remaining: nat, k: nat)
    ensures |RunDecreases(remaining, Ones(k)).granted| == Min(remaining, k)
    ensures RunDecreases(remaining, Ones(k)).remaining == remaining - Min(remaining, k)
  {
    if k > 0 {
      if remaining == 0 {
        UnitRequestsFailWhenEmpty(k);
      } else {
        UnitRequestsGrantMin(remaining - 1, k - 1);
        UnitRequestGranted(remaining, k);
      }
    }
  }

  /** With stock left, the first of k one-ticket requests is granted. */
  lemma UnitRequestGranted(remaining: nat, k: nat)
    requires 0 < remaining && 0 < k
    ensures |RunDecreases(remaining, Ones(k)).granted| == 1 + |RunDecreases(remaining - 1, Ones(k - 1)).granted|
    ensures RunDecreases(remaining, Ones(k)).remaining == RunDecreases(remaining - 1, Ones(k - 1)).remaining
  {
    var s := Ones(k);
    assert s[0] == 1 && s[1..] == Ones(k - 1);
  }

  lemma {:induction false} UnitRequestsFailWhenEmpty(k: nat)
    ensures RunDecreases(0, Ones(k)) == Run(0, [])
  {
    if k > 0 {
      assert Ones(k)[1..] == Ones(k - 1);
      UnitRequestsFailWhenEmpty(k - 1);
    }
  }

  class TicketStock {
    const id: Int64
    const concertId: Int64
    var totalQuantity: Int32
    var remainingQuantity: Int32

    ghost predicate Valid()
      reads this
    {
      InStock(totalQuantity, remainingQuantity)
    }

    /** The builder constructor, for quantities that pass validateQuantities
        (`Build` below models the failing case). */
    constructor (id: Int64, concertId: Int64, totalQuantity: Int32, remainingQuantity: Int32)
      requires ValidateQuantities(totalQuantity, remainingQuantity).None?
      ensures Valid()
      ensures this.id == id && this.concertId == concertId
      ensures this.totalQuantity == totalQuantity && this.remainingQuantity == remainingQuantity
    {
      this.id := id;
      this.concertId := concertId;
      this.totalQuantity := totalQuantity;
      this.remainingQuantity := remainingQuantity;
    }

    /** Validation precedes the write, so a failure leaves the record as it was. */
    method DecreaseQuantity(requestQuantity: Int32) returns (r: Outcome)
      modifies this
      ensures totalQuantity == old(totalQuantity)
      ensures old(Valid()) ==> Valid()
      ensures remainingQuantity <= old(remainingQuantity)
      ensures match Decrease(old(remainingQuantity), requestQuantity)
              case Success(next) => r == Pass && remainingQuantity == next
              case Failure(e) => r == Fail(e) && remainingQuantity == old(remainingQuantity)
    {
      if requestQuantity <= 0 {
        return Fail(IllegalArgument(QuantityMustBePositive));
      }
      if remainingQuantity < requestQuantity {
        return Fail(InsufficientTicketStock(remainingQuantity, requestQuantity));
      }
      remainingQuantity := remainingQuantity - requestQuantity;
      r := Pass;
    }
  }

  /** `TicketStock.builder()...build()`: the constructor's validation either
      rejects the quantities or yields a fresh valid record. */
  method Build(id: Int64, concertId: Int64, totalQuantity: Int32, remainingQuantity: Int32)
    returns (r: Result<TicketStock>)
    ensures r.Failure? <==> !InStock(totalQuantity, remainingQuantity)
    ensures r.Failure? ==> Some(r.error) == ValidateQuantities(totalQuantity, remainingQuantity)
    ensures r.Success? ==> fresh(r.value) && r.value.Valid()
    ensures r.Success? ==> r.value.id == id && r.value.concertId == concertId
    ensures r.Success? ==> r.value.totalQuantity == totalQuantity && r.value.remainingQuantity == remainingQuantity
  {
    var invalid := ValidateQuantities(totalQuantity, remainingQuantity);
    if invalid.Some? {
      return Failure(invalid.value);
    }
    var stock := new TicketStock(id, concertId, totalQuantity, remainingQuantity);
    r := Success(stock);
  }
}
