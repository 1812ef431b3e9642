/** The JSON responses the routes send, reduced to a status code and a body. */
module Http {
  import opened Common
  import opened DonationSchema

  /** The order object the payment gateway returns (`order.id`, amount in paise, currency). */
  datatype GatewayOrder = GatewayOrder(id: string, amount: int, currency: string)

  /** The user object the login route sends back: no password field exists in it. */
  datatype UserView = UserView(id: nat, name: string, email: string, role: string)

  /** The projection `select("name email createdAt")` of a user (with its _id). */
  datatype UserSummary = UserSummary(id: nat, name: string, email: string, createdAt: int)

  datatype Body =
    | Message(message: string)
    | Order(order: GatewayOrder)
    | Verified(message: string, donation: Option<Donation>)
    | History(donations: seq<Donation>)
    | Stats(users: nat, totalDonations: int, userList: seq<UserSummary>, donations: seq<Donation>)
    | LoggedIn(message: string, user: UserView)

  /** `NextResponse.json(body, { status })`; the status defaults to 200. */
  datatype Response = Response(status: nat, body: Body)

  /** What a route that updates the Donation table does: its response and the table afterwards. */
  datatype Outcome = Outcome(resp: Response, store: seq<Donation>)
}
