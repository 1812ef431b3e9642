/**
 * app/api/payment-failed/route.js: mark the first donation with the given
 * orderId as Failed, whatever its status, or answer 404 when there is none.
 */
module PaymentFailed {
  import opened Common
  import opened DonationSchema
  import opened Http
  import opened Store
  import opened AdminStats
  import opened VerifyPayment

  const OrderNotFound := "Order not found"
  const MarkedAsFailed := "Marked as failed"

  /** The route's effect on the Donation table and its response. */
  function MarkOrderFailed(s: seq<Donation>, orderId: string, now: int): (out: Outcome)
    ensures FirstOrder(s, orderId).None? ==> out == Outcome(Response(404, Message(OrderNotFound)), s)
    ensures FirstOrder(s, orderId).Some? ==>
              var i := FirstOrder(s, orderId).value;
              out.resp == Response(200, Message(MarkedAsFailed))
              && |out.store| == |s|
              && out.store[i].status == Failed && out.store[i].updatedAt == now
              && out.store[i].(status := s[i].status, updatedAt := s[i].updatedAt) == s[i]
              && (forall k :: 0 <= k < |s| && k != i ==> out.store[k] == s[k])
  {
    match FirstOrder(s, orderId)
    case None => Outcome(Response(404, Message(OrderNotFound)), s)
    case Some(i) => Outcome(Response(200, Message(MarkedAsFailed)), s[i := MarkFailed(s[i], now)])
  }

  /** The POST handler. */
  method Post(db: Database, orderId: string, now: int) returns (resp: Response)
    requires db.Valid()
    modifies db
    ensures db.Valid()
    ensures Outcome(resp, db.donations) == MarkOrderFailed(old(db.donations), orderId, now)
    ensures db.users == old(db.users) && db.nextId == old(db.nextId)
  {
    var found := db.FindOrder(orderId);
    if found.None? {
      return Response(404, Message(OrderNotFound));
    }
    db.Replace(found.value, MarkFailed(db.donations[found.value], now));
    resp := Response(200, Message(MarkedAsFailed));
  }

  /** A repeated call finds the same record again and changes nothing but its updatedAt stamp. */
  lemma MarkFailedTwice(s: seq<Donation>, orderId: string, now1: int, now2: int)
    ensures MarkOrderFailed(MarkOrderFailed(s, orderId, now1).store, orderId, now2)
            == Outcome(MarkOrderFailed(s, orderId, now1).resp, MarkOrderFailed(s, orderId, now2).store)
  {
    FirstOrderStable(s, MarkOrderFailed(s, orderId, now1).store, orderId);
  }

  /** At the same time, two calls leave the store as one does. */
  lemma MarkFailedIdempotent(s: seq<Donation>, orderId: string, now: int)
    ensures var once := MarkOrderFailed(s, orderId, now).store;
            MarkOrderFailed(once, orderId, now).store == once
  {
    MarkFailedTwice(s, orderId, now, now);
  }

  /**
   * Success is not final: a verified payment followed by a failure signal for
   * the same order ends Failed, and the admin total loses that amount again.
   */
  lemma FailureAfterVerifyWins(s: seq<Donation>, hmac: Hmac, secret: string,
                               orderId: string, paymentId: string, signature: string, now1: int, now2: int)
    requires Authentic(hmac, secret, orderId, paymentId, signature)
    requires FirstOrder(s, orderId).Some?
    ensures var i := FirstOrder(s, orderId).value;
            var t := MarkOrderFailed(Verify(s, hmac, secret, orderId, paymentId, signature, now1).store, orderId, now2).store;
            t[i].status == Failed && t[i].paymentId == Some(paymentId)
            && TotalSuccess(t) == TotalSuccess(s) - Credit(s[i])
  {
    var i := FirstOrder(s, orderId).value;
    var v := Verify(s, hmac, secret, orderId, paymentId, signature, now1).store;
    FirstOrderStable(s, v, orderId);
    var w := MarkSuccess(s[i], paymentId, now1);
    assert v == s[i := w];
    TotalReplace(s, i, w);
    var t := MarkOrderFailed(v, orderId, now2).store;
    assert t == v[i := MarkFailed(w, now2)];
    TotalReplace(v, i, MarkFailed(w, now2));
  }
}
