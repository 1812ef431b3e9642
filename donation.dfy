/**
 * The Donation record of models/Donation.js: a mongoose schema with a status
 * enum defaulting to "Pending", two required fields, two optional gateway
 * identifiers and automatic createdAt / updatedAt timestamps.
 */
module DonationSchema {
  import opened Common

  /** The three values the schema's `enum` admits. */
  datatype Status = Pending | Success | Failed

  /** A stored Donation. `userId` and `amount` are required, so a stored record always has them. */
  datatype Donation = Donation(
    id: nat,                     // the store-assigned _id
    userId: string,
    amount: int,
    status: Status,
    paymentId: Option<string>,   // optional; no constraint
    orderId: Option<string>,     // optional; NOT unique
    createdAt: int,              // milliseconds, set on creation
    updatedAt: int)              // milliseconds, refreshed on every update

  /** What a caller hands to `Donation.create`: any field may be missing, and the status is a string. */
  datatype Draft = Draft(
    userId: Option<string>,
    amount: Option<int>,
    status: Option<string>,
    paymentId: Option<string>,
    orderId: Option<string>)

  /** Why the schema refuses a draft. */
  datatype SchemaError = MissingUserId | MissingAmount | StatusNotInEnum(given: string)

  /** The string the store keeps for each status. */
  function StatusName(st: Status): string
  {
    match st
    case Pending => "Pending"
    case Success => "Success"
    case Failed => "Failed"
  }

  /** The enum check: a string is accepted exactly when it names one of the three statuses. */
  function ParseStatus(s: string): (r: Option<Status>)
    ensures r.Some? ==> StatusName(r.value) == s
    ensures r.None? ==> forall st: Status :: StatusName(st) != s
  {
    if s == "Pending" then Some(Pending)
    else if s == "Success" then Some(Success)
    else if s == "Failed" then Some(Failed)
    else None
  }

  /** Every status survives being written out and read back. */
  lemma StatusRoundTrip(st: Status)
    ensures ParseStatus(StatusName(st)) == Some(st)
  {
    match st
    case Pending =>
    case Success =>
    case Failed =>
  }

  /**
   * Validation and defaults applied by `Donation.create`: a missing userId or
   * amount, or a status outside the enum, is refused; a missing status becomes
   * Pending; both timestamps are the creation time.
   */
  function Create(draft: Draft, id: nat, now: int): (r: Result<Donation, SchemaError>)
    ensures r.Ok? <==> draft.userId.Some? && draft.amount.Some?
                       && (draft.status.None? || ParseStatus(draft.status.value).Some?)
    ensures r.Ok? ==> r.value.id == id
                      && Some(r.value.userId) == draft.userId
                      && Some(r.value.amount) == draft.amount
                      && r.value.paymentId == draft.paymentId
                      && r.value.orderId == draft.orderId
                      && r.value.createdAt == now && r.value.updatedAt == now
    ensures r.Ok? && draft.status.None? ==> r.value.status == Pending
    ensures r.Ok? && draft.status.Some? ==> StatusName(r.value.status) == draft.status.value
  {
    if draft.userId.None? then Err(MissingUserId)
    else if draft.amount.None? then Err(MissingAmount)
    else
      var st :=
        if draft.status.None? then Some(Pending) else ParseStatus(draft.status.value);
      if st.None? then Err(StatusNotInEnum(draft.status.value))
      else Ok(Donation(id, draft.userId.value, draft.amount.value, st.value,
                       draft.paymentId, draft.orderId, now, now))
  }

  /** The update `{ status: "Failed" }`, with the timestamp mongoose adds to every update. */
  function MarkFailed(d: Donation, now: int): (r: Donation)
    ensures r.status == Failed && r.updatedAt == now
    ensures r.(status := d.status, updatedAt := d.updatedAt) == d
  {
    d.(status := Failed, updatedAt := now)
  }

  /** The update `{ status: "Success", paymentId }`, with the refreshed timestamp. */
  function MarkSuccess(d: Donation, paymentId: string, now: int): (r: Donation)
    ensures r.status == Success && r.paymentId == Some(paymentId) && r.updatedAt == now
    ensures r.(status := d.status, paymentId := d.paymentId, updatedAt := d.updatedAt) == d
  {
    d.(status := Success, paymentId := Some(paymentId), updatedAt := now)
  }
}
