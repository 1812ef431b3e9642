/**
 * app/api/verify-payment/route.js: recompute the gateway's signature over
 * `orderId|paymentId` and, if it matches, mark the first donation with that
 * orderId as Success with the paymentId. The update does not look at the
 * record's current status, and a missing record still answers 200.
 * HMAC-SHA256 with hex output is a function-typed parameter.
 */
module VerifyPayment {
  import opened Common
  import opened DonationSchema
  import opened Http
  import opened Store
  import opened AdminStats

  /** HMAC-SHA256 under a key, hex-encoded: `(secret, message) -> digest`. */
  type Hmac = (string, string) -> string

  const InvalidTransaction := "Invalid Transaction"
  const PaymentVerified := "Payment Verified"

  /** The signed message `orderCreationId + "|" + razorpayPaymentId`. */
  function Payload(orderId: string, paymentId: string): string
  {
    orderId + "|" + paymentId
  }

  /** Reads a payload back: everything before the first '|', and everything after it. */
  function SplitPayload(s: string): (string, string)
  {
    if s == [] then ([], [])
    else if s[0] == '|' then ([], s[1..])
    else
      var rest := SplitPayload(s[1..]);
      ([s[0]] + rest.0, rest.1)
  }

  /** With a '|'-free order id the payload names its order and payment unambiguously. */
  lemma {:induction false} PayloadRoundTrip(orderId: string, paymentId: string)
    requires '|' !in orderId
    ensures SplitPayload(Payload(orderId, paymentId)) == (orderId, paymentId)
  {
    if orderId != [] {
      assert Payload(orderId, paymentId)[1..] == Payload(orderId[1..], paymentId);
      PayloadRoundTrip(orderId[1..], paymentId);
      assert [orderId[0]] + orderId[1..] == orderId;
    }
  }

  /** So a digest is computed over a different message for every other '|'-free (order, payment) pair. */
  lemma PayloadInjective(o1: string, p1: string, o2: string, p2: string)
    requires '|' !in o1 && '|' !in o2
    requires Payload(o1, p1) == Payload(o2, p2)
    ensures o1 == o2 && p1 == p2
  {
    PayloadRoundTrip(o1, p1);
    PayloadRoundTrip(o2, p2);
  }

  /** The comparison `digest !== razorpaySignature`, negated. */
  predicate Authentic(hmac: Hmac, secret: string, orderId: string, paymentId: string, signature: string)
  {
    hmac(secret, Payload(orderId, paymentId)) == signature
  }

  /** The route's effect on the Donation table and its response. */
  function Verify(s: seq<Donation>, hmac: Hmac, secret: string,
                  orderId: string, paymentId: string, signature: string, now: int): (out: Outcome)
    ensures !Authentic(hmac, secret, orderId, paymentId, signature) ==>
              out == Outcome(Response(400, Message(InvalidTransaction)), s)
    ensures Authentic(hmac, secret, orderId, paymentId, signature) && FirstOrder(s, orderId).None? ==>
              out == Outcome(Response(200, Verified(PaymentVerified, None)), s)
    ensures Authentic(hmac, secret, orderId, paymentId, signature) && FirstOrder(s, orderId).Some? ==>
              var i := FirstOrder(s, orderId).value;
              |out.store| == |s|
              && out.store[i].status == Success && out.store[i].paymentId == Some(paymentId)
              && out.store[i].updatedAt == now
              && out.store[i].(status := s[i].status, paymentId := s[i].paymentId, updatedAt := s[i].updatedAt) == s[i]
              && (forall k :: 0 <= k < |s| && k != i ==> out.store[k] == s[k])
              && out.resp == Response(200, Verified(PaymentVerified, Some(out.store[i])))
  {
    if !Authentic(hmac, secret, orderId, paymentId, signature) then
      Outcome(Response(400, Message(InvalidTransaction)), s)
    else match FirstOrder(s, orderId)
      case None => Outcome(Response(200, Verified(PaymentVerified, None)), s)
      case Some(i) =>
        var updated := MarkSuccess(s[i], paymentId, now);
        Outcome(Response(200, Verified(PaymentVerified, Some(updated))), s[i := updated])
  }

  /** The POST handler: the signature is checked before the store is touched. */
  method Post(db: Database, hmac: Hmac, secret: string,
              orderCreationId: string, razorpayPaymentId: string, razorpaySignature: string, now: int)
    returns (resp: Response)
    requires db.Valid()
    modifies db
    ensures db.Valid()
    ensures Outcome(resp, db.donations)
            == Verify(old(db.donations), hmac, secret, orderCreationId, razorpayPaymentId, razorpaySignature, now)
    ensures db.users == old(db.users) && db.nextId == old(db.nextId)
  {
    var digest := hmac(secret, Payload(orderCreationId, razorpayPaymentId));
    if digest != razorpaySignature {
      return Response(400, Message(InvalidTransaction));
    }
    var found := db.FindOrder(orderCreationId);
    if found.None? {
      return Response(200, Verified(PaymentVerified, None));
    }
    var updated := MarkSuccess(db.donations[found.value], razorpayPaymentId, now);
    db.Replace(found.value, updated);
    resp := Response(200, Verified(PaymentVerified, Some(updated)));
  }

  /** Replaying an accepted event changes nothing but the updatedAt stamp of the record it hit. */
  lemma VerifyTwice(s: seq<Donation>, hmac: Hmac, secret: string,
                    orderId: string, paymentId: string, signature: string, now1: int, now2: int)
    ensures Verify(Verify(s, hmac, secret, orderId, paymentId, signature, now1).store,
                   hmac, secret, orderId, paymentId, signature, now2).store
            == Verify(s, hmac, secret, orderId, paymentId, signature, now2).store
  {
    if Authentic(hmac, secret, orderId, paymentId, signature) && FirstOrder(s, orderId).Some? {
      var t := Verify(s, hmac, secret, orderId, paymentId, signature, now1).store;
      FirstOrderStable(s, t, orderId);
    }
  }

  /** Applying the same accepted event twice at the same time leaves the store as one application does. */
  lemma VerifyIdempotent(s: seq<Donation>, hmac: Hmac, secret: string,
                         orderId: string, paymentId: string, signature: string, now: int)
    ensures var once := Verify(s, hmac, secret, orderId, paymentId, signature, now).store;
            Verify(once, hmac, secret, orderId, paymentId, signature, now).store == once
  {
    VerifyTwice(s, hmac, secret, orderId, paymentId, signature, now, now);
  }

  /** The write is unconditional: an authentic event turns a Failed record back into Success. */
  lemma VerifyRevivesFailed(s: seq<Donation>, hmac: Hmac, secret: string,
                            orderId: string, paymentId: string, signature: string, now: int)
    requires Authentic(hmac, secret, orderId, paymentId, signature)
    requires FirstOrder(s, orderId).Some? && s[FirstOrder(s, orderId).value].status == Failed
    ensures Verify(s, hmac, secret, orderId, paymentId, signature, now).store[FirstOrder(s, orderId).value].status == Success
  {
  }

  /** Turning a Pending record into Success raises the admin total by exactly its amount. */
  lemma VerifyCreditsPending(s: seq<Donation>, hmac: Hmac, secret: string,
                             orderId: string, paymentId: string, signature: string, now: int)
    requires Authentic(hmac, secret, orderId, paymentId, signature)
    requires FirstOrder(s, orderId).Some? && s[FirstOrder(s, orderId).value].status == Pending
    ensures TotalSuccess(Verify(s, hmac, secret, orderId, paymentId, signature, now).store)
            == TotalSuccess(s) + s[FirstOrder(s, orderId).value].amount
  {
    var i := FirstOrder(s, orderId).value;
    TotalReplace(s, i, MarkSuccess(s[i], paymentId, now));
  }
}
