# NSS donation portal: the donation-record lifecycle in Dafny

This project models the server side of a donation portal built on Next.js
route handlers, mongoose and the Razorpay gateway. Each HTTP route performs
one operation on two tables:

- a Donation table, whose records run through the statuses Pending, Success and Failed;
- a User table.

The tables are fields of one `Store.Database` object. Each state-changing
route is a method that updates those fields in place and returns a
`Response` (a status code and a body). Each read-only route is a function.
Each route's effect is also stated as a function of the old table. The
lemmas about those functions state what the routes promise: which record
changes, which fields, and that nothing else changes.

Modules, one per source file plus shared pieces:

- `Common`: Option and Result.
- `DonationSchema` (models/Donation.js): the record, the status enum, create-time validation and defaults, and the two updates.
- `Users`: the user record and lookup by email. The user schema file `models/User.js` is not part of this model.
- `Ordering`: the newest-first sort that the history and stats queries apply.
- `Http`: responses.
- `Store`: the `Database` class, first-match lookup by orderId, `Donation.create` and `User.create`.
- One module for each route: `CreateOrder`, `VerifyPayment`, `PaymentFailed`, `History`, `AdminStats`, `Register`, `Login`.
- `AuthPage` (app/page.js): role detection, endpoint choice and redirect choice.

Points where the code does less than a payment state machine usually would, and which the model keeps as written:

- Verify-payment and payment-failed overwrite any status. The code has no "only while Pending" guard, so Success is not final: `PaymentFailed.FailureAfterVerifyWins` proves that a failure signal after a verified payment leaves the record Failed.
- `orderId` is not unique, so every update hits the first matching record.
- Verify-payment answers 200 with a null donation when no record has the order id.
- Only the history route fails stale Pending records, and only those of the requesting user. The admin-stats route reads the tables as they are.
- Create-order persists the userId from the request body. A body without one fails the schema, and that happens after the gateway order already exists.

## Model

| member | source | states |
|---|---|---|
| DonationSchema.ParseStatus | models/Donation.js:10-14 | a status string is accepted exactly when it names Pending, Success or Failed |
| DonationSchema.StatusRoundTrip | models/Donation.js:10-14 | every status read back from its stored name is itself |
| DonationSchema.Create | models/Donation.js:3-17 | creation is refused exactly when userId or amount is missing or the status is outside the enum; otherwise the record carries the given fields, status defaults to Pending, createdAt = updatedAt = now |
| DonationSchema.MarkFailed | app/api/payment-failed/route.js:14 | the update sets status Failed and refreshes updatedAt, leaving every other field as it was |
| DonationSchema.MarkSuccess | app/api/verify-payment/route.js:24-27 | the update sets status Success and the paymentId and refreshes updatedAt, leaving every other field as it was |
| Users.FirstByEmail | app/api/auth/login/route.js:13 | the result is the first user with that email, and None exactly when no user has it |
| Users.AppendUnusedEmail | app/api/auth/register/route.js:14-28 | appending a user with an unused email keeps emails unique and makes the new user the one found by that email |
| Ordering.Insert | app/api/user/history/route.js:25 | inserting into a newest-first list gives a newest-first list with exactly one more element, that element |
| Ordering.NewestFirst | app/api/admin/stats/route.js:14 | the sorted list is ordered by createdAt descending and is a permutation of the input |
| Store.FirstOrder | app/api/payment-failed/route.js:12-13 | the result is the first record carrying that orderId, and None exactly when no record carries it |
| Store.FirstOrderStable | app/api/verify-payment/route.js:22-29 | updates that keep every orderId keep the first match where it was |
| Store.FirstOrderAppend | models/Donation.js:16 | an appended record is the first match for its orderId when no earlier record carries that orderId (and, by FirstOrder's contract, only then) |
| Store.Database.FindOrder | app/api/verify-payment/route.js:22-23 | the scan returns the first record with that orderId, or None when there is none |
| Store.Database.FindUserByEmail | app/api/auth/register/route.js:14 | the scan returns the first user with that email, or None when there is none |
| Store.Database.CreateDonation | models/Donation.js:3-17 | a valid draft is appended under a fresh _id; an invalid one changes nothing; ids stay distinct |
| Store.Database.CreateUser | app/api/auth/register/route.js:23-28 | the user is appended under a fresh _id and the Donation table is untouched |
| Store.Database.Replace | app/api/payment-failed/route.js:12-16 | exactly one record is replaced, by a version with the same _id |
| AdminStats.SuccessOnly | app/api/admin/stats/route.js:17-18 | the filter keeps every Success record as many times as the table holds it, and nothing else |
| AdminStats.TotalSnoc | app/api/admin/stats/route.js:17-19 | one more record raises the total by its amount if it is Success and by nothing otherwise |
| AdminStats.TotalConcat | app/api/admin/stats/route.js:17-19 | the total of two tables side by side is the sum of their totals |
| AdminStats.TotalCons | app/api/admin/stats/route.js:17-19 | a record in front raises the total by its amount if it is Success and by nothing otherwise |
| AdminStats.TotalPointwise | app/api/admin/stats/route.js:17-19 | only Success amounts matter: tables that credit the same amounts position by position have the same total |
| AdminStats.TotalReplace | app/api/admin/stats/route.js:17-19 | replacing one record moves the total by the difference of the two records' credits |
| AdminStats.TotalInsert | app/api/admin/stats/route.js:14-19 | inserting into a newest-first list adds exactly the record's credit |
| AdminStats.TotalNewestFirst | app/api/admin/stats/route.js:14-19 | summing the sorted list gives the same total as summing the table |
| AdminStats.CountRole | app/api/admin/stats/route.js:11 | the count never exceeds the number of users |
| AdminStats.Customers | app/api/admin/stats/route.js:22 | the list holds every role-"user" user as many times as the table holds it, and nothing else |
| AdminStats.CountIsCustomers | app/api/admin/stats/route.js:11-22 | the role count equals the length of the role-"user" list |
| AdminStats.Summaries | app/api/admin/stats/route.js:22 | each listed user is projected to _id, name, email and createdAt, in order |
| AdminStats.Get | app/api/admin/stats/route.js:6-31 | (the reduce is SumAmounts over SuccessOnly, named TotalSuccess) 200 with users = length of the user list = count of role-"user" users, total = sum of Success amounts, every donation newest first, and the list being exactly the projections of role-"user" users |
| CreateOrder.Post | app/api/create-order/route.js:11-38 | the gateway is asked for amount*100 in INR; a gateway failure or a rejected insert gives 500 "Error creating order" with the table unchanged; otherwise exactly one Pending record is appended (userId, amount, paymentId "", orderId = gateway id) and the gateway order is the body |
| CreateOrder.NewOrderIsFound | app/api/create-order/route.js:24-30 | a lookup by the new order id finds the new Pending record with empty paymentId, unless an earlier record has the same order id |
| CreateOrder.NewOrderKeepsTotal | app/api/create-order/route.js:24-30 | a new Pending record leaves the admin total unchanged |
| VerifyPayment.PayloadRoundTrip | app/api/verify-payment/route.js:12 | for an orderId without a vertical bar the signed message splits back into the orderId and the paymentId |
| VerifyPayment.PayloadInjective | app/api/verify-payment/route.js:11-13 | distinct (orderId, paymentId) pairs whose orderIds hold no vertical bar sign distinct messages |
| VerifyPayment.Verify | app/api/verify-payment/route.js:11-31 | (the digest comparison is the predicate Authentic) a signature mismatch gives 400 "Invalid Transaction" with the table unchanged; a match with no record gives 200 with a null donation and no change; a match otherwise sets the first record to Success with the paymentId, whatever its status, and changes nothing else |
| VerifyPayment.Post | app/api/verify-payment/route.js:6-37 | the handler has exactly the effect and response of Verify, so a signature mismatch leaves the store unchanged |
| VerifyPayment.VerifyTwice | app/api/verify-payment/route.js:22-29 | replaying an accepted event gives the store that the later event alone gives |
| VerifyPayment.VerifyIdempotent | app/api/verify-payment/route.js:22-29 | the same event twice at the same time leaves the store one event leaves |
| VerifyPayment.VerifyRevivesFailed | app/api/verify-payment/route.js:23-27 | an authentic event turns a Failed record into Success |
| VerifyPayment.VerifyCreditsPending | app/api/verify-payment/route.js:22-29 | verifying a Pending record raises the admin total by exactly its amount |
| PaymentFailed.MarkOrderFailed | app/api/payment-failed/route.js:12-23 | no matching record gives 404 "Order not found" with no change; otherwise the first match becomes Failed whatever its status, nothing else changes, and the answer is 200 "Marked as failed" |
| PaymentFailed.Post | app/api/payment-failed/route.js:5-29 | the handler has exactly the effect and response of MarkOrderFailed |
| PaymentFailed.MarkFailedTwice | app/api/payment-failed/route.js:12-16 | a repeated call answers as the first did and leaves the store that the later call alone gives |
| PaymentFailed.MarkFailedIdempotent | app/api/payment-failed/route.js:12-16 | two calls at the same time leave the store one call leaves |
| PaymentFailed.FailureAfterVerifyWins | app/api/payment-failed/route.js:12-16 | after a verified payment a failure signal leaves the record Failed, with the paymentId kept, and takes its amount out of the admin total |
| History.Sweep | app/api/user/history/route.js:13-22 | (the updateMany filter is the predicate Stale) exactly the records of this user that are Pending and created strictly before now - 15 minutes change, and they change only to Failed with updatedAt = now |
| History.SweepSpares | app/api/user/history/route.js:15-17 | Success and Failed records, other users' records and Pending records 15 minutes old or younger are untouched |
| History.SweepIdempotent | app/api/user/history/route.js:13-22 | sweeping twice at the same time is sweeping once |
| History.SweepKeepsTotal | app/api/user/history/route.js:13-22 | the sweep leaves the admin total unchanged |
| History.OwnedBy | app/api/user/history/route.js:25 | the query returns every record of this user as many times as the table holds it, and nothing else |
| History.Listing | app/api/user/history/route.js:25 | the returned list is newest first and holds this user's records with the same per-record counts as the query result |
| History.Post | app/api/user/history/route.js:5-33 | the handler's loop leaves the swept table and answers 200 with the listing of the swept table |
| Register.Register | app/api/auth/register/route.js:13-30 | a used email gives 400 "User already exists" with no change; otherwise one user with the hashed password is appended and the answer is 201; unique emails stay unique |
| Register.Post | app/api/auth/register/route.js:6-35 | the handler has exactly the effect and response of Register and leaves the Donation table alone |
| Login.Login | app/api/auth/login/route.js:6-39 | (the projection is View) unknown email and wrong password give the same 400 "Invalid email or password"; success exactly when the email is found and the password matches, with id, name, email and role and no password |
| Login.RegisterThenLogin | app/api/auth/login/route.js:13-33 | a freshly registered user logs in with the same password and gets the stored id, name, email and role back |
| AuthPage.EndsWith | app/page.js:20 | the suffix test holds exactly when the string's last characters are the suffix |
| AuthPage.GetRole | app/page.js:18-21 | the role is "admin" exactly for an email ending in "iitr.ac.in" and "user" otherwise, including the empty email |
| AuthPage.IitrAddressIsAdmin | app/page.js:20 | every address at iitr.ac.in is detected as admin |
| AuthPage.LookalikeDomainIsAdmin | app/page.js:20 | the test is a plain suffix test: "a@notiitr.ac.in" is admin too |
| AuthPage.Submit | app/page.js:28-38 | the form posts to the login endpoint in login mode and to register otherwise, with the detected role in the body |
| AuthPage.AfterResponse | app/page.js:42-48 | an ok answer redirects to /admin/dashboard exactly when the detected role is admin and to /user/dashboard otherwise; a failure alerts the server's message, or "Authentication failed!" when it is missing or empty |

## Left out

- The Razorpay SDK call is a foreign network call. Its answer is the parameter `gateway` of `CreateOrder.Post`: None when the call throws, otherwise the order object. The random receipt string is not modelled.
- HMAC-SHA256 with hex output and bcrypt hash/compare are not modelled. They are the function-typed parameters `hmac`, `hash` and `matches`. Nothing is assumed about them except, in `Login.RegisterThenLogin`, that the compare accepts a password against its own hash.
- `Date.now()` and the mongoose timestamp clock are the parameter `now`, in milliseconds. The verify-payment and payment-failed handlers take it too, because their updates refresh updatedAt.
- Amounts are unbounded integers. JavaScript number arithmetic (floating point) in `amount * 100` and in the stats sum is not modelled. Neither is the cast of a string amount to a Number.
- A missing or non-numeric amount in the create-order request is not modelled: the gateway's reaction to `NaN` paise is unknown.
- Request fields are strings. A missing orderId, email or userId (JavaScript `undefined`, which mongoose drops from a query filter) is not modelled, nor is the ObjectId cast of userId.
- `connectDB`, `req.json()`, `NextResponse` and the catch-all 500 handlers are plumbing. Database errors other than schema validation are not modelled.
- Concurrency between handlers is not modelled. Each route is one sequential, atomic step on the store.
- `AdminStats.CountRole`: its own contract states only a bound. That it counts the role-"user" users is stated by `AdminStats.CountIsCustomers` and `AdminStats.Get`.
- The store's order among records with equal createdAt is unspecified. The model keeps the earlier-listed record first.
- When mongoose validation fails, it reports every failing field at once. `DonationSchema.Create` reports only the first one. The route turns any failure into the same 500.
- The user schema (models/User.js) is not part of this model. In particular, any uniqueness index on email is not modelled. Uniqueness is proved to be kept by registration.
- The catch branch of the login page's submit handler (app/page.js:49-51) is not modelled. It alerts "Something went wrong. Is the backend running?" when the request or the JSON parsing throws, and that is network I/O.
- The `console.log` and `console.error` calls in every route (for one, app/api/payment-failed/route.js:10,19) are logging only and are not modelled.
- AdminStats.SuccessOnly, AdminStats.Customers, History.OwnedBy: their contracts state the per-record counts of the result, not that it keeps the table's order. The total does not depend on the order, and the history listing re-sorts.
- React component state (`setFormData`, `setLoading`, `setIsLogin`), the rendering of every page and the dashboards are presentation only and are not modelled.
- The donation form posts only the amount, with no userId. Its success handler never calls verify-payment.
