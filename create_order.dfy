/**
 * app/api/create-order/route.js: ask the payment gateway for an order of the
 * amount in paise, then record a Pending donation keyed by the gateway's
 * order id. The gateway call is a foreign network call: its answer is a
 * parameter (None when it throws).
 */
module CreateOrder {
  import opened Common
  import opened DonationSchema
  import opened Http
  import opened Store
  import opened AdminStats

  /** What is sent to the gateway (the random receipt string is not modelled). */
  datatype OrderRequest = OrderRequest(amount: int, currency: string)

  const OrderError := "Error creating order"

  /** The draft handed to `Donation.create` once the gateway has answered with `order`. */
  function PendingDraft(userId: Option<string>, amount: int, order: GatewayOrder): Draft
  {
    Draft(userId, Some(amount), Some("Pending"), Some(""), Some(order.id))
  }

  /**
   * The POST handler. A missing userId (the donation form posts only the
   * amount) fails the schema after the gateway order exists: 500, nothing
   * written.
   */
  method Post(db: Database, amount: int, userId: Option<string>, gateway: Option<GatewayOrder>, now: int)
    returns (sent: OrderRequest, resp: Response)
    requires db.Valid()
    modifies db
    ensures db.Valid()
    ensures sent == OrderRequest(amount * 100, "INR")
    ensures gateway.None? || userId.None? ==>
              resp == Response(500, Message(OrderError))
              && db.donations == old(db.donations) && db.nextId == old(db.nextId)
    ensures gateway.Some? && userId.Some? ==>
              resp == Response(200, Order(gateway.value))
              && db.donations == old(db.donations)
                   + [Donation(old(db.nextId), userId.value, amount, Pending, Some(""), Some(gateway.value.id), now, now)]
              && db.nextId == old(db.nextId) + 1
    ensures db.users == old(db.users)
  {
    sent := OrderRequest(amount * 100, "INR");
    if gateway.None? {
      return sent, Response(500, Message(OrderError));
    }
    var order := gateway.value;
    var created := db.CreateDonation(PendingDraft(userId, amount, order), now);
    if created.Err? {
      return sent, Response(500, Message(OrderError));
    }
    resp := Response(200, Order(order));
  }

  /**
   * A freshly created order is the one later lookups find, Pending with an
   * empty paymentId, provided no earlier record carries the same order id.
   */
  lemma NewOrderIsFound(s: seq<Donation>, d: Donation)
    requires d.orderId.Some? && d.status == Pending && d.paymentId == Some("")
    requires FirstOrder(s, d.orderId.value).None?
    ensures FirstOrder(s + [d], d.orderId.value) == Some(|s|)
    ensures (s + [d])[|s|].status == Pending && (s + [d])[|s|].paymentId == Some("")
  {
    FirstOrderAppend(s, d, d.orderId.value);
  }

  /** A new Pending record adds nothing to the admin total. */
  lemma NewOrderKeepsTotal(s: seq<Donation>, d: Donation)
    requires d.status == Pending
    ensures TotalSuccess(s + [d]) == TotalSuccess(s)
  {
    TotalSnoc(s, d);
  }
}
