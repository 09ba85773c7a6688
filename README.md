# NextSalesApp core, modelled in Dafny

NextSalesApp is a sales and stock application for a small business. A Next.js front end
and its server-side controllers keep invoices, received (purchase) invoices, products and
admins in MongoDB. A Spring back end keeps users and customers. This project models the parts
of both that decide something, and it proves what they promise.

- **Authentication.** `AdminControllers` models the admin login, logout and registration
  over an in-memory admin and credentials store (`AdminStore`). It also models the
  statistics and the admin count. `UserService` models the Spring user table (`UserTable`):
  registration, login with its `KAIRO` cookie, logout and verification. bcrypt, the JWT
  signer and the Spring encoder, authenticator and token generator are function
  parameters.
- **Request gate.** `Middleware` models the structural token decoding, the
  redirect/forward decision, the forwarded user headers and the matcher scope.
- **Signup form.** `Signup` models the password and e-mail criteria, the strength score and
  its label, the submit condition, the form handlers and the admin-count check.
- **Pagination bar.** `Pagination` builds the page-number bar with its ellipses (a loop
  method proved against a specification function) and models the arrow buttons.
- **Invoice numbers.** `InvoiceNumbers` models the three invoice-number generators: the
  yearly `INV-<year>-NNNN`, the issued `INV-NNNNN` and the received `REC-NNNNN`.
- **Sales database.** `InvoiceStore` holds the sales database (`SalesDb`): cancelling,
  paying, creating an invoice with its stock decrement, and creating a received invoice
  with its stock increment. `InvoiceQueries` models the read-only queries: invoice
  listings, per-customer totals, the report date range, the product sales report with its
  summary, and the top sellers.
- **Editor pages.** `ItemEditor`, `NewInvoicePage` and `ReceivedInvoicePage` model the
  invoice editors: item edits that keep totals balanced, customer selection, input parsing
  and save validation.
- **List pages.** `ListViews` holds what the list pages share: the column-sort toggle,
  stable sorting by a comparator, the six-row page slice and the "Showing" range.
  `InvoicesPage`, `ReceivedPage`, `CustomersPage`, `AdminRequestsPage`, `ProductsPage` and
  `ProductStockPage` model each page's filter, sort, paging and list edits.
- **Report pages.** `SalesReportPage`, `TopSoldPage`, `DashboardPage` and
  `ConfirmationEmail` model the reports: grouping by product name, commissions, category
  totals, percentage changes and the monthly e-mail's totals and tables.
- **Shared values.** `Common` holds the shared value helpers: Option, sums, string search,
  splitting, decimal printing and parsing, insertion sort, and JavaScript's `slice`.
  `Records` holds the stored record shapes.

Money is `real`. The stored records, the stores and the invoice editors keep quantities and stock as `int`; the pages that only display fetched figures (TopSoldPage, DashboardPage, ProductsPage, ProductStockPage and ConfirmationEmail) carry quantities, stock and kilograms as `real`. Dates are ISO strings compared as
strings. The stored records keep their dates as strings, and strings are compared in
code-point order (Common.StrLt), the order of a database sort on a string field.

## Model

| member | source | states |
|---|---|---|
| AdminControllers.FindByUsername | my-next-app/src/lib/controllers/adminControllers/Admin.controllers.tsx:17 | a found admin is in the collection and has the username; nothing is found exactly when no admin has it |
| AdminControllers.FindCredentials | my-next-app/src/lib/controllers/adminControllers/Admin.controllers.tsx:22 | a found record is in the collection and belongs to the admin; nothing is found exactly when no record has that owner |
| AdminControllers.DecideLogin | my-next-app/src/lib/controllers/adminControllers/Admin.controllers.tsx:12-35 | the login gets past the 401 only when some admin has the username and a credentials record of that admin whose hash accepts the password; past it, the login is accepted when JWT_SECRET is set and fails for lack of it otherwise |
| AdminControllers.LoginReply | my-next-app/src/lib/controllers/adminControllers/Admin.controllers.tsx:18-43 | the reply has status 200 exactly for an accepted login and 401 exactly for a rejected one |
| AdminControllers.LoginAcceptedIff | my-next-app/src/lib/controllers/adminControllers/Admin.controllers.tsx:17-38 | with consistent accounts, login is accepted iff some admin has the username, its stored hash accepts the password and the secret is set; the accepted id is that admin's; an unknown user, missing credentials and a wrong password all give the same 401 "Invalid username or password", whether or not the secret is set; a correct password with JWT_SECRET unset gives the 500 "JWT_SECRET is not defined" |
| AdminControllers.RegisterKeepsAccounts | my-next-app/src/lib/controllers/adminControllers/Admin.controllers.tsx:65-90 | registering a username and email nobody has keeps admin ids, usernames and emails distinct and gives each credentials record a distinct owner |
| AdminControllers.RegisteredAdminCanLogIn | my-next-app/src/lib/controllers/adminControllers/Admin.controllers.tsx:12-90 | right after a successful registration the new admin can log in with the registered password, given the secret is set and bcrypt accepts a password against its own hash |
| AdminControllers.GetStatistics | my-next-app/src/lib/controllers/adminControllers/Admin.controllers.tsx:104-120 | RevenueOf gives a cancelled invoice 0; totalInvoices counts every invoice; totalRevenue is the sum of the totals of the invoices that are not cancelled |
| AdminControllers.GetAdminCount | my-next-app/src/lib/controllers/adminControllers/Admin.controllers.tsx:129-133 | value is true exactly when there are no admins, with status 200, and false with status 404 otherwise |
| AdminControllers.AdminStore.LoginAdmin | my-next-app/src/lib/controllers/adminControllers/Admin.controllers.tsx:12-45 | the collections do not change; the reply comes from the login decision; an accepted login sets the NextSalesApp cookie, HttpOnly, to a token signed over the admin id alone with a one-hour expiry; any other outcome leaves the cookies as they were |
| AdminControllers.AdminStore.LogoutAdmin | my-next-app/src/lib/controllers/adminControllers/Admin.controllers.tsx:47-51 | no NextSalesApp cookie remains, whether one existed or not; other cookies and the collections are kept; the reply is 200 "Logout successful" |
| AdminControllers.AdminStore.RegisterAdmin | my-next-app/src/lib/controllers/adminControllers/Admin.controllers.tsx:60-95 | a taken username or email gives 400 and changes nothing; otherwise exactly one admin (without a password) and one credentials record holding the hash, owned by the new id, are appended, with reply 201 |
| UserService.Verify | backend/src/main/java/com/backend/backend/service/UserService.java:80-82 | only the given user's verified flag changes, to true; the other users and the set of ids are kept |
| UserService.VerifyIdempotent | backend/src/main/java/com/backend/backend/service/UserService.java:78-83 | verifying a user twice leaves the same table as verifying once |
| UserService.UserTable.RegisterUser | backend/src/main/java/com/backend/backend/service/UserService.java:34-43 | the password is stored encoded, never as given; a new user gets the next id, a user with an id overwrites that row; a failing save answers 500 and changes nothing; success answers 201 |
| UserService.UserTable.LoginUser | backend/src/main/java/com/backend/backend/service/UserService.java:45-63 | authentication adds exactly one KAIRO cookie holding the token made from the request's role, with 200; an unauthenticated result answers 401 and an exception 500, both "Login Failed" and adding no cookie; the user table is untouched |
| UserService.UserTable.Logout | backend/src/main/java/com/backend/backend/service/UserService.java:65-76 | the reply is "Logout Successful"; the cookie built has a null value, is HttpOnly, and would remove any KAIRO token cookie |
| UserService.UserTable.VerifyUser | backend/src/main/java/com/backend/backend/service/UserService.java:78-88 | a known id with a working save sets that user's verified flag and answers 200; an unknown id or a failing save answers 500 and changes nothing |
| CustomerService.Find | backend/src/main/java/com/backend/backend/service/CustomerService.java:40 | a row is found exactly when one has the id, and the row found has it |
| CustomerService.CopyFields | backend/src/main/java/com/backend/backend/service/CustomerService.java:41-45 | the stored row keeps its id and takes every other field from the submitted customer |
| CustomerService.UpdateRows | backend/src/main/java/com/backend/backend/service/CustomerService.java:40-46 | only the row with the id changes, to the copied fields; the table keeps its length |
| CustomerService.SaveRow | backend/src/main/java/com/backend/backend/service/CustomerService.java:19 | saving overwrites the row with the same id or appends a new one; other rows are kept and the saved row reads back |
| CustomerService.DeleteRows | backend/src/main/java/com/backend/backend/service/CustomerService.java:54 | no row with the id remains, every other row stays, and no row is invented |
| CustomerService.FindAppended | backend/src/main/java/com/backend/backend/service/CustomerService.java:19 | a row appended under a fresh id reads back by that id |
| CustomerService.UpdateIdempotent | backend/src/main/java/com/backend/backend/service/CustomerService.java:35-47 | updating twice with the same data gives the same table as updating once |
| CustomerService.UpdateReadsBack | backend/src/main/java/com/backend/backend/service/CustomerService.java:40-46 | after an update the row reads back with the submitted fields |
| CustomerService.CustomerTable.CreateCustomer | backend/src/main/java/com/backend/backend/service/CustomerService.java:17-24 | a working save stores the customer and answers 201; a failing one answers 500 and changes nothing |
| CustomerService.CustomerTable.GetAllCustomers | backend/src/main/java/com/backend/backend/service/CustomerService.java:26-33 | every stored row, or none when the query fails |
| CustomerService.CustomerTable.UpdateCustomer | backend/src/main/java/com/backend/backend/service/CustomerService.java:35-51 | an unknown id answers 404 and changes nothing; a known one copies the fields onto the stored row and answers 200; a failing repository answers 500 and changes nothing |
| CustomerService.CustomerTable.DeleteCustomer | backend/src/main/java/com/backend/backend/service/CustomerService.java:52-59 | the row with the id is removed, an unknown id removing nothing, with 200; a failing repository answers 500 and changes nothing |
| CustomerService.CustomerTable.GetCustomerById | backend/src/main/java/com/backend/backend/service/CustomerService.java:61-68 | the stored row with the id, or null when it is absent or the query fails |
| CustomerService.SaveKeepsDistinct | backend/src/main/java/com/backend/backend/service/CustomerService.java:19 | saving keeps row ids distinct |
| CustomerService.DeleteKeepsDistinct | backend/src/main/java/com/backend/backend/service/CustomerService.java:54 | deleting keeps row ids distinct |
| InvoiceNumbers.FieldAt | my-next-app/src/lib/controllers/invoiceControllers/Invoice.controllers.tsx:115 | a dash-separated field never contains a dash |
| InvoiceNumbers.Successor | my-next-app/src/lib/controllers/invoiceControllers/Invoice.controllers.tsx:116 | the successor is at least as long as the padding width, all digits, and parses back to the counter plus one |
| InvoiceNumbers.YearlyScheme | my-next-app/src/lib/controllers/invoiceControllers/Invoice.controllers.tsx:105-117 | the yearly scheme's head fields ("INV" and the year) contain no dash |
| InvoiceNumbers.NextNumber | my-next-app/src/lib/controllers/invoiceControllers/Invoice.controllers.tsx:111-117 | continuing from a stored number gives a number that starts with the scheme's pattern |
| InvoiceNumbers.NextYearlyNumber | my-next-app/src/lib/controllers/invoiceControllers/Invoice.controllers.tsx:105-117 | the yearly generator's number always starts with "INV-<year>-" |
| InvoiceNumbers.NextIssuedNumber | my-next-app/src/lib/controllers/invoiceControllers/Invoice.controllers.jsx:113-125 | the issued generator's number always starts with "INV-" |
| InvoiceNumbers.NextReceivedNumber | my-next-app/src/lib/controllers/recievedControllers/recieved.controllers.jsx:66-78 | the received generator's number always starts with "REC-" |
| InvoiceNumbers.NextNumberRoundTrip | my-next-app/src/lib/controllers/invoiceControllers/Invoice.controllers.tsx:115-117 | the next number again contains the pattern and its counter field reads back as the last counter plus one |
| InvoiceNumbers.Matching | my-next-app/src/lib/controllers/invoiceControllers/Invoice.controllers.tsx:105-107 | exactly the stored numbers containing the pattern are kept |
| InvoiceNumbers.StrMax | my-next-app/src/lib/controllers/invoiceControllers/Invoice.controllers.tsx:108-109 | the maximum in code-point order is one of the numbers and no number sorts after it |
| InvoiceNumbers.LastByString | my-next-app/src/lib/controllers/invoiceControllers/Invoice.controllers.tsx:105-109 | nothing is found exactly when no number contains the pattern; otherwise the number found contains it and is the greatest such in string order |
| InvoiceNumbers.NewestIndex | my-next-app/src/lib/controllers/recievedControllers/recieved.controllers.jsx:66-70 | nothing is found exactly when no received number contains "REC-"; otherwise the position found holds the newest matching record, the earliest one on ties |
| InvoiceNumbers.LaidOut | my-next-app/src/lib/controllers/invoiceControllers/Invoice.controllers.tsx:115 | a number laid out as the dashed heads followed by digits contains the pattern, and its counter is the value of the digits |
| InvoiceNumbers.LastIs | my-next-app/src/lib/controllers/invoiceControllers/Invoice.controllers.tsx:108-109 | the string-greatest matching number is the one the generator continues from |
| InvoiceNumbers.FirstNumbers | my-next-app/src/lib/controllers/invoiceControllers/Invoice.controllers.tsx:111-113 | with no matching number the generators hand out "INV-<year>-0001", "INV-25201" (my-next-app/src/lib/controllers/invoiceControllers/Invoice.controllers.jsx:119-121) and "REC-2899" (my-next-app/src/lib/controllers/recievedControllers/recieved.controllers.jsx:72-74) |
| InvoiceNumbers.YearlyIncrements | my-next-app/src/lib/controllers/invoiceControllers/Invoice.controllers.tsx:105-117 | otherwise the yearly number starts with "INV-<year>-" and its counter is the string-greatest matching number's counter plus one |
| InvoiceNumbers.ReceivedIncrements | my-next-app/src/lib/controllers/recievedControllers/recieved.controllers.jsx:66-78 | the received number starts with "REC-" and continues the counter of the newest record with a "REC-" number |
| InvoiceNumbers.SingleNext | my-next-app/src/lib/controllers/recievedControllers/recieved.controllers.jsx:76-78 | a single stored received number is continued from its own counter |
| InvoiceNumbers.ReceivedAfterFirst | my-next-app/src/lib/controllers/recievedControllers/recieved.controllers.jsx:72-78 | "REC-2899" is followed by "REC-02900": the first number has four digits and its successors five |
| InvoiceNumbers.LongerSortsFirst | my-next-app/src/lib/controllers/invoiceControllers/Invoice.controllers.tsx:108 | past the padding a longer counter sorts before a shorter one in string order |
| InvoiceNumbers.RepeatsPastPadding | my-next-app/src/lib/controllers/invoiceControllers/Invoice.controllers.tsx:105-117 | once the counter n+1 outgrows the padding and sorts before n, the generator hands out the number after n again and again |
| InvoiceNumbers.YearlyRepeatsAfter9999 | my-next-app/src/lib/controllers/invoiceControllers/Invoice.controllers.tsx:105-117 | as written: after "INV-<year>-9999" the generator returns "INV-<year>-10000" for ever, repeating a stored number |
| InvoiceNumbers.IssuedRepeatsAfter99999 | my-next-app/src/lib/controllers/invoiceControllers/Invoice.controllers.jsx:113-125 | as written: after "INV-99999" the generator returns "INV-100000" for ever |
| InvoiceNumbers.MaxCounter | my-next-app/src/lib/controllers/invoiceControllers/Invoice.controllers.tsx:108-115 | the greatest counter among the matching numbers: no matching counter exceeds it and some matching number carries it |
| InvoiceNumbers.NextNumberCorrected | my-next-app/src/lib/controllers/invoiceControllers/Invoice.controllers.tsx:111-113 | corrected generator: with no matching number it hands out the scheme's first number |
| InvoiceNumbers.CorrectedIsFresh | my-next-app/src/lib/controllers/invoiceControllers/Invoice.controllers.tsx:105-117 | corrected generator: the next number is never already stored, is matched by the pattern, and its counter exceeds every stored counter |
| InvoiceNumbers.YearlyWellFormed | my-next-app/src/lib/controllers/invoiceControllers/Invoice.controllers.tsx:112 | the first yearly number is matched by the yearly pattern and carries a counter |
| InvoiceNumbers.IssuedWellFormed | my-next-app/src/lib/controllers/invoiceControllers/Invoice.controllers.jsx:120 | "INV-25201" is matched by its scheme's pattern and carries a counter |
| InvoiceNumbers.ReceivedWellFormed | my-next-app/src/lib/controllers/recievedControllers/recieved.controllers.jsx:73 | "REC-2899" is matched by its scheme's pattern and carries a counter |
| InvoiceNumbers.CorrectedPastPadding | my-next-app/src/lib/controllers/invoiceControllers/Invoice.controllers.tsx:115-117 | corrected generator: after "INV-<year>-9999" and "INV-<year>-10000" comes "INV-<year>-10001" |
| InvoiceStore.IndexOfId | my-next-app/src/lib/controllers/invoiceControllers/Invoice.controllers.jsx:43-46 | the lookup by `_id` behind IndexOfInvoice and IndexOfProduct (the product lookup at lines 10-15): the position found holds the document with that id; nothing is found exactly when no document has it |
| InvoiceStore.Cancel | my-next-app/src/lib/controllers/invoiceControllers/Invoice.controllers.jsx:43-46 | the cancel update keeps the length and every id, and leaves every invoice with another id unchanged |
| InvoiceStore.Pay | my-next-app/src/lib/controllers/invoiceControllers/Invoice.controllers.jsx:96 | the paid update keeps the length and every id, and leaves every invoice with another id unchanged |
| InvoiceStore.CancelFlagsOnly | my-next-app/src/lib/controllers/invoiceControllers/Invoice.controllers.jsx:40-50 | cancelling removes no record: the invoice with the id is afterwards cancelled and otherwise unchanged, every other invoice is untouched, and ids stay distinct |
| InvoiceStore.CancelTwice | my-next-app/src/lib/controllers/invoiceControllers/Invoice.controllers.jsx:43-48 | a second cancel of the same id modifies nothing, so it answers 404, and leaves the same store |
| InvoiceStore.PayTwice | my-next-app/src/lib/controllers/invoiceControllers/Invoice.controllers.jsx:96-99 | a second markAsPaid of the same id modifies nothing, so it throws, and leaves the same store |
| InvoiceStore.TakeStock | my-next-app/src/lib/controllers/invoiceControllers/Invoice.controllers.jsx:10-15 | decrementing one product's stock keeps the number of products |
| InvoiceStore.SellAll | my-next-app/src/lib/controllers/invoiceControllers/Invoice.controllers.jsx:8-16 | taking every item out of stock keeps the number of products |
| InvoiceStore.SellAllTakes | my-next-app/src/lib/controllers/invoiceControllers/Invoice.controllers.jsx:8-16 | after a sale each product's stock went down by the total quantity the items order of it, possibly below zero, and nothing else about any product changed |
| InvoiceStore.PutStock | my-next-app/src/lib/controllers/recievedControllers/recieved.controllers.jsx:39-49 | the one product gets stock plus the quantity, and an entire stock that starts from the current stock when it was 0; every other product is unchanged |
| InvoiceStore.RestockAll | my-next-app/src/lib/controllers/recievedControllers/recieved.controllers.jsx:32-50 | putting the items into stock keeps the number of products |
| InvoiceStore.FirstMissing | my-next-app/src/lib/controllers/recievedControllers/recieved.controllers.jsx:34-37 | no item is reported exactly when every item names a stored product; a reported id names no stored product but some item |
| InvoiceStore.RestockSkips | my-next-app/src/lib/controllers/recievedControllers/recieved.controllers.jsx:32-50 | a receipt leaves the products no item names unchanged |
| InvoiceStore.RestockDistinct | my-next-app/src/lib/controllers/recievedControllers/recieved.controllers.jsx:39-49 | for items naming distinct products, a receipt adds each item's quantity to its product's stock and sets its entire stock by the zero rule |
| InvoiceStore.RestockKeepsDistinct | my-next-app/src/lib/controllers/recievedControllers/recieved.controllers.jsx:44-49 | a receipt keeps product ids distinct |
| InvoiceStore.RestockKeepsIds | my-next-app/src/lib/controllers/recievedControllers/recieved.controllers.jsx:44-49 | a receipt keeps each product's id in place |
| InvoiceStore.SalesDb.DeleteInvoice | my-next-app/src/lib/controllers/invoiceControllers/Invoice.controllers.jsx:40-57 | the invoice is flagged cancelled, products and receipts untouched; the answer is 200 when the update modified the invoice and 404 when it was missing or already cancelled |
| InvoiceStore.SalesDb.MarkAsPaid | my-next-app/src/lib/controllers/invoiceControllers/Invoice.controllers.jsx:93-107 | the invoice is flagged paid, products and receipts untouched; an update that modifies nothing ends in the 500 answer |
| InvoiceStore.SalesDb.CreateInvoice | my-next-app/src/lib/controllers/invoiceControllers/Invoice.controllers.jsx:5-25 | every item is first taken out of stock, a missing product skipped; a number already stored is refused by the unique index with 500 after the stock has moved; otherwise the invoice is appended with 201 |
| InvoiceStore.SalesDb.PutAllInStock | my-next-app/src/lib/controllers/recievedControllers/recieved.controllers.jsx:32-50 | the products become the restocked products; invoices and receipts are untouched |
| InvoiceStore.SalesDb.CreateReceivedInvoice | my-next-app/src/lib/controllers/recievedControllers/recieved.controllers.jsx:27-60 | the items of existing products are put into stock; an item naming a missing product fails the call with that id and saves no receipt; otherwise the receipt is saved as given, stamped with its creation time |
| InvoiceStore.PayKeepsDistinct | my-next-app/src/lib/controllers/invoiceControllers/Invoice.controllers.jsx:96 | paying keeps invoice ids distinct |
| InvoiceStore.SellKeepsIds | my-next-app/src/lib/controllers/invoiceControllers/Invoice.controllers.jsx:10-15 | a sale keeps each product's id in place |
| Signup.IndexOf | my-next-app/src/app/signup/page.tsx:51 | the first occurrence of the character: it holds the character and none comes before it; none is found exactly when the character does not occur |
| Signup.IndexOfOnly | my-next-app/src/app/signup/page.tsx:51 | a character that occurs once is found at that position |
| Signup.ValidEmailIsShape | my-next-app/src/app/signup/page.tsx:51 | ValidEmail, the page's validEmail: the one-scan email check accepts exactly the strings the pattern describes: a clean run, '@', a clean run, '.', a clean run |
| Signup.ValidEmailHasShape | my-next-app/src/app/signup/page.tsx:51 | an accepted email splits into three clean runs around one '@' and a later '.' |
| Signup.ShapeIsValidEmail | my-next-app/src/app/signup/page.tsx:51 | three clean runs joined by '@' and '.' are accepted |
| Signup.ShortPasswordCanSubmit | my-next-app/src/app/signup/page.tsx:277 | SubmitDisabled is the button's disabled expression over Has8Chars (on the username), the three character tests, PasswordMatch, ValidEmail and isOneAdmin; the length rule measures the username in UTF-16 code units, as `.length` does: a form with a three-character password and an eight-character username enables the button |
| Signup.EmojiUsernameHas8Chars | my-next-app/src/app/signup/page.tsx:46 | a username of four characters above U+FFFF is eight code units long and passes the length rule |
| Signup.PasswordStrength | my-next-app/src/app/signup/page.tsx:53-60 | HasLowercase, HasUppercase and HasSpecialChar are the `/[a-z]/`, `/[A-Z]/` and `/[!@#$%^&*]/` tests; one point for each of a length of at least 8 UTF-16 code units, a lower-case letter, an upper-case letter and a special character; at most 4, 4 exactly when all hold, 0 exactly when none does |
| Signup.StrengthScale | my-next-app/src/app/signup/page.tsx:62-69 | StrengthLabel and StrengthColour: label and colour both show the level of the score capped at 4 |
| Signup.SetField | my-next-app/src/app/signup/page.tsx:39-42 | the named field takes the value and every other field is kept |
| Signup.HandleChange | my-next-app/src/app/signup/page.tsx:37-44 | only the named field changes and the error is cleared; messages, admin flag and navigation are kept |
| Signup.HandleSubmit | my-next-app/src/app/signup/page.tsx:71-102 | the form is emptied whatever the answer; 201 shows the success message and schedules the return to "/"; any other status shows the message as the error |
| Signup.RegisterBody | my-next-app/src/app/signup/page.tsx:73-79 | the request carries the first name, last name, username, password and email the form holds |
| Signup.ConfirmationNotSent | my-next-app/src/app/signup/page.tsx:77 | the confirmation field never reaches the request: changing it leaves the body unchanged |
| Signup.AdminCheck | my-next-app/src/app/signup/page.tsx:19-35 | isOneAdmin is stored as the count answer's value; the "Admin exists" message and the return to "/" are scheduled whatever the answer |
| Signup.NoAdminBlocksSignup | my-next-app/src/app/signup/page.tsx:28 | with no admin stored the count answers true, so the button is disabled for every form |
| Signup.AdminCheckCorrected | my-next-app/src/app/signup/page.tsx:19-35 | the flag means an admin exists: it is set exactly when the count answers false |
| Signup.CorrectedCheckAllowsFirstAdmin | my-next-app/src/app/signup/page.tsx:277 | with the corrected flag an empty system leaves the button to the form checks alone, and an existing admin disables it |
| Middleware.Base64UrlToBase64 | my-next-app/src/middleware.tsx:18 | same length; '-' becomes '+', '_' becomes '/', every other character is kept |
| Middleware.DecodeJwt | my-next-app/src/middleware.tsx:6-32 | a token without exactly three dot-separated parts fails; a token with three parts yields exactly the decoding of its middle part, mapped from base64url to base64 |
| Middleware.ForwardedHeaders | my-next-app/src/middleware.tsx:67-69 | the forwarded map holds every request header plus x-user-id and x-user-role set to the stringified id and role; other headers keep their values |
| Middleware.UserHeaders | my-next-app/src/middleware.tsx:67-69 | setting the two headers one after the other on a copy yields exactly the forwarded map |
| Middleware.DecidePolicy | my-next-app/src/middleware.tsx:34-82 | Decide, the middleware body for a gated path, is forwarded exactly when the cookie decodes to claims with a truthy id and role, a truthy verification flag and, on an editor path, a role other than viewer; then with the two user headers; no cookie, an undecodable token, a falsy id or role, or an undefined verification flag goes to "/"; a defined but falsy flag goes to "/not-verified" whatever the role and path; a verified viewer on an editor path goes to "/dashboard"; every redirect is to one of these three |
| Middleware.SignatureIgnored | my-next-app/src/middleware.tsx:9-15 | two well-formed tokens with the same payload segment get the same decision whatever their header and signature |
| Middleware.Handle | my-next-app/src/middleware.tsx:84-103 | Gated (some matcher entry covers the path) over MatchesPattern (an exact entry matches the path itself, a `/:path*` entry the path and everything below it): a path outside the matcher passes with its headers untouched; a gated one is decided by the middleware |
| Middleware.UngatedPaths | my-next-app/src/middleware.tsx:84-103 | "/admin-requests" and "/newInvoice/draft" are served without any cookie, while "/dashboard" without a cookie goes to "/" |
| Middleware.NotPrefixAt | my-next-app/src/middleware.tsx:84-103 | a path that differs from a pattern at some position is neither that path nor below it |
| Middleware.LoginTokenAlwaysRejected | my-next-app/src/middleware.tsx:47-52 | AdminControllers.LoginClaims are the claims loginAdmin signs; a token signed over the login claims, which hold only the id, is sent to "/" on every gated path |
| Middleware.SessionTokenAdmitsVerifiedAdmin | my-next-app/src/middleware.tsx:47-76 | AdminControllers.SessionClaims are the claims the gate needs; a token over id, role and verification flag lets a verified admin through with its id and role as headers |
| Middleware.ReceivedEditorUngated | my-next-app/src/middleware.tsx:84-103 | "/received-invoice" is outside the misspelt matcher, so it is served to anyone, token or not |
| Middleware.ReceivedPathOutsideMatcher | my-next-app/src/middleware.tsx:84-103 | no matcher entry covers "/received-invoice" |
| Middleware.ReceivedEditorGatedCorrected | my-next-app/src/middleware.tsx:62-64 | with the page's real path in the matcher and the editor list, a verified viewer goes to "/dashboard" and a request without a token to "/" |
| Pagination.Range | my-next-app/src/components/Pagination.tsx:18-20 | the integers from lo to hi in order, none when hi is below lo |
| Pagination.Window | my-next-app/src/components/Pagination.tsx:11-25 | between one and five strictly increasing pages starting at 1, all within the page count, ending at the last page when there are several, just [1] otherwise; the current page is included and the inner pages are consecutive |
| Pagination.Pages | my-next-app/src/components/Pagination.tsx:58-79 | the entries of a bar that are page buttons: none is an ellipsis |
| Pagination.Bar | my-next-app/src/components/Pagination.tsx:28-39 | the bar is at least as long as the page list and at most twice as long |
| Pagination.GetPageNumbers | my-next-app/src/components/Pagination.tsx:11-40 | the result is the bar of the window of the current page |
| Pagination.WindowIsBuilt | my-next-app/src/components/Pagination.tsx:12-25 | page 1, the neighbours of the current page inside 2..total-1, then the last page when there are several, is the window |
| Pagination.MarkGaps | my-next-app/src/components/Pagination.tsx:28-39 | the second loop yields the bar of its page list |
| Pagination.BarOfAscending | my-next-app/src/components/Pagination.tsx:28-39 | for ascending page numbers the bar shows exactly those pages in order, starts with 1, ends with the last of them, and puts an ellipsis exactly between two pages that are not neighbours |
| Pagination.AscendingPrefix | my-next-app/src/components/Pagination.tsx:28-39 | dropping the last page keeps the list ascending |
| Pagination.PushKeepsEllipses | my-next-app/src/components/Pagination.tsx:31-37 | one loop step keeps ellipses exactly at the gaps and appends the new page |
| Pagination.PushPages | my-next-app/src/components/Pagination.tsx:32-35 | one loop step adds exactly one page button |
| Pagination.WindowBar | my-next-app/src/components/Pagination.tsx:11-40 | the rendered bar shows the window's pages, starts with 1, ends with the last page, is [1] for a single page, marks exactly the gaps and has at most seven entries |
| Pagination.BarOfOne | my-next-app/src/components/Pagination.tsx:28-39 | a single page shows a single button |
| Pagination.WindowBarShowsCurrent | my-next-app/src/components/Pagination.tsx:11-40 | a current page within the page count is always shown |
| Pagination.BarGaps | my-next-app/src/components/Pagination.tsx:28-39 | with only the outer pages possibly apart, a bar has at most two ellipses |
| Pagination.BarGapsInner | my-next-app/src/components/Pagination.tsx:28-39 | with pages consecutive after the second, a bar has at most one ellipsis |
| Pagination.PageIsShown | my-next-app/src/components/Pagination.tsx:58-79 | every page number of a bar is one of its entries |
| Pagination.ArrowsStayInRange | my-next-app/src/components/Pagination.tsx:46-88 | PrevDisabled (page 1) and NextDisabled (the last page) are the arrows' disabled conditions; from a page within range the enabled arrows stay within range; with no pages at all "next" is still enabled on page 1 |
| ItemEditor.FindEntry | my-next-app/src/app/newInvoice/page.tsx:126 | the first catalogue entry with that id; none exactly when no entry has it |
| ItemEditor.Apply | my-next-app/src/app/newInvoice/page.tsx:120-137 | the field is set, a known product also brings its price and name, an unknown one keeps them, and the row total becomes quantity times price |
| ItemEditor.EditItems | my-next-app/src/app/newInvoice/page.tsx:114-151 | same length; the rows with the id are edited and every other row is kept |
| ItemEditor.AddItem | my-next-app/src/app/newInvoice/page.tsx:153-166 | the rows are kept and a blank row with id one more than the row count is appended |
| ItemEditor.RemoveItem | my-next-app/src/app/newInvoice/page.tsx:168-183 | a single row is never removed; otherwise exactly the rows with other ids remain |
| ItemEditor.EditKeepsPriced | my-next-app/src/app/newInvoice/page.tsx:114-151 | editing keeps every row's total equal to quantity times price |
| ItemEditor.AddKeepsSum | my-next-app/src/app/newInvoice/page.tsx:153-166 | adding keeps every row priced and leaves the sum of totals unchanged |
| ItemEditor.RemoveKeepsPriced | my-next-app/src/app/newInvoice/page.tsx:168-183 | removing keeps every row priced |
| ItemEditor.RemoveCanEmpty | my-next-app/src/app/newInvoice/page.tsx:153-175 | add, remove row 1, add gives two rows with the same id, and removing that id empties the list |
| ItemEditor.MaxId | my-next-app/src/app/newInvoice/page.tsx:153-166 | no row's id is above it |
| ItemEditor.AddItemFresh | my-next-app/src/app/newInvoice/page.tsx:153-166 | the appended row's id differs from every id in use, so distinct ids stay distinct |
| ItemEditor.RemoveDistinct | my-next-app/src/app/newInvoice/page.tsx:168-183 | with distinct ids a removal keeps them distinct, drops at most one row and never empties a non-empty list |
| ItemEditor.FilterDropsOne | my-next-app/src/app/newInvoice/page.tsx:170 | filtering one id out of distinct rows keeps them distinct, loses at most one row and none when the id is absent |
| ItemEditor.HeadAbsentFromRest | my-next-app/src/app/newInvoice/page.tsx:170 | under distinct ids no row kept from the tail shares the first row's id |
| ItemEditor.ConsDistinct | my-next-app/src/app/newInvoice/page.tsx:170 | a row whose id is new can be put in front of distinct rows |
| InvoiceQueries.NewerDateOrders | my-next-app/src/lib/controllers/invoiceControllers/Invoice.controllers.jsx:30 | newest date first is a total preorder, so the listing can be sorted by it |
| InvoiceQueries.AllInvoices | my-next-app/src/lib/controllers/invoiceControllers/Invoice.controllers.jsx:27-38 | every invoice, each as often as stored, newest date first |
| InvoiceQueries.RecentInvoices | my-next-app/src/lib/controllers/invoiceControllers/Invoice.controllers.jsx:134-145 | the smaller of five and the invoice count, all stored, newest date first |
| InvoiceQueries.RecentAreNewest | my-next-app/src/lib/controllers/invoiceControllers/Invoice.controllers.jsx:137 | an invoice left out of the recent five is no newer than any of them |
| InvoiceQueries.ReceivedInvoices | my-next-app/src/lib/controllers/recievedControllers/recieved.controllers.jsx:5-14 | every received invoice, each as often as stored, most recently created first |
| InvoiceQueries.CustomerInvoices | my-next-app/src/lib/controllers/invoiceControllers/Invoice.controllers.jsx:59-70 | exactly the stored invoices of that customer |
| InvoiceQueries.AdditionalData | my-next-app/src/lib/controllers/invoiceControllers/Invoice.controllers.jsx:72-91 | no invoices gives a total of 0 and no date; otherwise the total spent is the sum of the totals of all the customer's invoices, cancelled ones included, and the date is that of the customer's first stored invoice |
| InvoiceQueries.SpentIsShareOfStore | my-next-app/src/lib/controllers/invoiceControllers/Invoice.controllers.jsx:75-83 | the total spent, read off the whole store, is the sum over every stored invoice of its total when it is the customer's and 0 otherwise |
| InvoiceQueries.FilteredSpending | my-next-app/src/lib/controllers/invoiceControllers/Invoice.controllers.jsx:75-83 | summing the totals of the customer's invoices equals summing each stored invoice's share |
| InvoiceQueries.SpentIgnoresCancellation | my-next-app/src/lib/controllers/invoiceControllers/Invoice.controllers.jsx:79-82 | cancelling one invoice leaves the customer's total spent unchanged |
| InvoiceQueries.CustomerTotalsAgree | my-next-app/src/lib/controllers/invoiceControllers/Invoice.controllers.jsx:79-82 | stores differing only in cancellation flags give each customer the same invoice count and total |
| InvoiceQueries.FirstStoredDateWins | my-next-app/src/lib/controllers/invoiceControllers/Invoice.controllers.jsx:83 | with an older invoice stored before a newer one, the reported last purchase is the older date |
| InvoiceQueries.LatestPurchase | my-next-app/src/lib/controllers/invoiceControllers/Invoice.controllers.jsx:72-91 | none exactly when the customer has no invoice; otherwise a date of one of them that no other date of theirs exceeds |
| InvoiceQueries.SelectRange | my-next-app/src/lib/controllers/invoiceControllers/Invoice.controllers.jsx:229-310 | a time frame gives a range the clock defines; without one, a start and an end date give that range; otherwise the current month |
| InvoiceQueries.TimeFrameWins | my-next-app/src/lib/controllers/invoiceControllers/Invoice.controllers.jsx:235-304 | a time frame overrides the custom dates, and "today" is the one-day range of today |
| InvoiceQueries.UnknownTimeFrameIsThisMonth | my-next-app/src/lib/controllers/invoiceControllers/Invoice.controllers.jsx:286-300 | an unknown time frame gives the same range as no parameters at all |
| InvoiceQueries.LinesOf | my-next-app/src/lib/controllers/invoiceControllers/Invoice.controllers.jsx:329 | one unwound document per item of the invoice, in order, carrying the invoice id |
| InvoiceQueries.Unwind | my-next-app/src/lib/controllers/invoiceControllers/Invoice.controllers.jsx:159 | the unwound lines number exactly the items of all the invoices |
| InvoiceQueries.Active | my-next-app/src/lib/controllers/invoiceControllers/Invoice.controllers.jsx:152-156 | exactly the invoices that are not cancelled, in order |
| InvoiceQueries.ProductIdsOf | my-next-app/src/lib/controllers/invoiceControllers/Invoice.controllers.jsx:334 | the product id of each line, in order |
| InvoiceQueries.InvoiceIdsOf | my-next-app/src/lib/controllers/invoiceControllers/Invoice.controllers.jsx:338 | the invoice id of each line, in order |
| InvoiceQueries.OfProduct | my-next-app/src/lib/controllers/invoiceControllers/Invoice.controllers.jsx:333-340 | exactly the lines of the product, in order |
| InvoiceQueries.CategoryOf | my-next-app/src/lib/controllers/invoiceControllers/Invoice.controllers.jsx:344-357 | a category is found exactly when some product has the id |
| InvoiceQueries.RowsFor | my-next-app/src/lib/controllers/invoiceControllers/Invoice.controllers.jsx:333-340 | one group row per id, in order |
| InvoiceQueries.RowOfSold | my-next-app/src/lib/controllers/invoiceControllers/Invoice.controllers.jsx:338-360 | a product with lines counts between one invoice and as many invoices as it has lines |
| InvoiceQueries.GroupRows | my-next-app/src/lib/controllers/invoiceControllers/Invoice.controllers.jsx:333-340 | Group, the `$group` stage over the lines (one RowOf per distinct product id in order of first appearance): group ids are distinct and every line's product has a group |
| InvoiceQueries.DistinctRowIds | my-next-app/src/lib/controllers/invoiceControllers/Invoice.controllers.jsx:334 | rows built for distinct ids carry distinct ids |
| InvoiceQueries.RowIdsAre | my-next-app/src/lib/controllers/invoiceControllers/Invoice.controllers.jsx:334 | each row carries the id it was built for |
| InvoiceQueries.EveryProductListed | my-next-app/src/lib/controllers/invoiceControllers/Invoice.controllers.jsx:334 | every line's product is among the group ids |
| InvoiceQueries.GroupCountsInvoices | my-next-app/src/lib/controllers/invoiceControllers/Invoice.controllers.jsx:338-360 | each report row counts at least one invoice and no more than its product's lines |
| InvoiceQueries.GroupConservesRevenue | my-next-app/src/lib/controllers/invoiceControllers/Invoice.controllers.jsx:337 | over distinct ids covering every line, the row revenues add up to the line revenues |
| InvoiceQueries.NoLinesNoRevenue | my-next-app/src/lib/controllers/invoiceControllers/Invoice.controllers.jsx:337 | no lines give no revenue |
| InvoiceQueries.RevenueSplit | my-next-app/src/lib/controllers/invoiceControllers/Invoice.controllers.jsx:337 | one more line adds its total to the revenue sum when its product has a row |
| InvoiceQueries.LastIdIsNew | my-next-app/src/lib/controllers/invoiceControllers/Invoice.controllers.jsx:334 | with distinct ids, membership splits into the front or the last id, never both |
| InvoiceQueries.LineStep | my-next-app/src/lib/controllers/invoiceControllers/Invoice.controllers.jsx:336-337 | one more line changes only its own product's quantity and revenue, by its own quantity and total |
| InvoiceQueries.GroupConservesQuantity | my-next-app/src/lib/controllers/invoiceControllers/Invoice.controllers.jsx:336 | over distinct ids covering every line, the row quantities add up to the line quantities |
| InvoiceQueries.NoLinesNoQuantity | my-next-app/src/lib/controllers/invoiceControllers/Invoice.controllers.jsx:336 | no lines give no quantity |
| InvoiceQueries.QuantitySplit | my-next-app/src/lib/controllers/invoiceControllers/Invoice.controllers.jsx:336 | one more line adds its quantity to the quantity sum when its product has a row |
| InvoiceQueries.GroupConserves | my-next-app/src/lib/controllers/invoiceControllers/Invoice.controllers.jsx:333-340 | the groups carry all the revenue and quantity of the lines |
| InvoiceQueries.TopSelling | my-next-app/src/lib/controllers/invoiceControllers/Invoice.controllers.jsx:147-208 | best sellers most units first; exactly min(limit, number of products) rows with a limit and one row per product sold without one, the rows then being a permutation of the groups; each row a group of the non-cancelled invoices' lines |
| InvoiceQueries.ByQuantity | my-next-app/src/lib/controllers/invoiceControllers/Invoice.controllers.jsx:172 | the same rows, most units first |
| InvoiceQueries.TopFiveOutsell | my-next-app/src/lib/controllers/invoiceControllers/Invoice.controllers.tsx:139-170 | a product left out of the five best sellers sold no more units than any of them |
| InvoiceQueries.TopSellingConserves | my-next-app/src/lib/controllers/invoiceControllers/Invoice.controllers.jsx:147-208 | without a limit the best sellers carry every unit and every rupee of the non-cancelled invoices |
| InvoiceQueries.ReportedInvoices | my-next-app/src/lib/controllers/invoiceControllers/Invoice.controllers.jsx:321-327 | exactly the invoices in the range that are paid and not cancelled |
| InvoiceQueries.SalesReport | my-next-app/src/lib/controllers/invoiceControllers/Invoice.controllers.jsx:319-366 | the groups of the reported invoices' lines, most revenue first |
| InvoiceQueries.Summarize | my-next-app/src/lib/controllers/invoiceControllers/Invoice.controllers.jsx:369-377 | SummaryOf is the reference; the accumulated summary is the component-wise sum of the rows |
| InvoiceQueries.ReportSummaryConserves | my-next-app/src/lib/controllers/invoiceControllers/Invoice.controllers.jsx:319-377 | the summary's revenue and quantity are those of all lines of the reported invoices |
| NewInvoicePage.Initial | my-next-app/src/app/newInvoice/page.tsx:80-98 | the starting draft has one blank row and is balanced: subtotal the sum of row totals, tax a tenth of it, total their sum |
| NewInvoicePage.WithItems | my-next-app/src/app/newInvoice/page.tsx:140-150 | the new rows with subtotal their sum, tax a tenth and total subtotal plus tax; nothing else changes |
| NewInvoicePage.UpdateItemField | my-next-app/src/app/newInvoice/page.tsx:114-151 | the rows are edited and, when they were priced, the draft is balanced afterwards; nothing else changes |
| NewInvoicePage.QuantityEdit | my-next-app/src/app/newInvoice/page.tsx:452-459 | a quantity edit exists exactly when `parseInt` yields a number, and then carries that number |
| NewInvoicePage.ClearedQuantityIsNaN | my-next-app/src/app/newInvoice/page.tsx:452-459 | an emptied quantity field yields NaN, not a quantity |
| NewInvoicePage.AddItemToDraft | my-next-app/src/app/newInvoice/page.tsx:153-166 | a blank row is appended, amounts untouched, and a balanced draft stays balanced |
| NewInvoicePage.RemoveItemFromDraft | my-next-app/src/app/newInvoice/page.tsx:168-183 | a one-row draft is unchanged; otherwise the rows with the id go; balance is kept |
| NewInvoicePage.FindCustomer | my-next-app/src/app/newInvoice/page.tsx:193-195 | the customer found has the id; none exactly when no customer has it |
| NewInvoicePage.SelectCustomer | my-next-app/src/app/newInvoice/page.tsx:192-224 | a known customer is copied in with its EPF number or ""; an unknown id clears the customer and details and keeps the EPF number |
| NewInvoicePage.SelectKeepsBalance | my-next-app/src/app/newInvoice/page.tsx:192-224 | selecting a customer keeps the rows and the balance |
| NewInvoicePage.SaveInvoice | my-next-app/src/app/newInvoice/page.tsx:227-249 | the draft is posted unchanged exactly when a customer is chosen and every row has a product; no customer is the first alert |
| NewInvoicePage.RunKeepsBalance | my-next-app/src/app/newInvoice/page.tsx:80-224 | every draft reachable from the initial one by edits, additions, removals and customer selections is balanced |
| ReceivedInvoicePage.Settle | my-next-app/src/app/received-invoice/page.tsx:180-189 | the total becomes the sum of the row totals; nothing else changes |
| ReceivedInvoicePage.Initial | my-next-app/src/app/received-invoice/page.tsx:63-70 | the starting draft has one blank row and is settled |
| ReceivedInvoicePage.UpdateItemField | my-next-app/src/app/received-invoice/page.tsx:106-136 | the rows are edited and, when they were priced, the total is their sum afterwards; nothing else changes |
| ReceivedInvoicePage.AddItemToDraft | my-next-app/src/app/received-invoice/page.tsx:138-151 | a blank row is appended and a settled total stays the same |
| ReceivedInvoicePage.RemoveItemFromDraft | my-next-app/src/app/received-invoice/page.tsx:153-163 | a single row is never removed; otherwise the rows with the id go; the draft stays settled |
| ReceivedInvoicePage.QuantityInput | my-next-app/src/app/received-invoice/page.tsx:577 | NaN and 0 become 1; any other parsed integer, negative ones included, is kept; the result is never 0 |
| ReceivedInvoicePage.QuantityInputLandmarks | my-next-app/src/app/received-invoice/page.tsx:577 | a typed "-3" is kept as -3 and an emptied field gives 1 |
| ReceivedInvoicePage.PriceInput | my-next-app/src/app/received-invoice/page.tsx:594 | NaN becomes 0, a parsed number is kept |
| ReceivedInvoicePage.SaveReceived | my-next-app/src/app/received-invoice/page.tsx:193-216 | the draft is posted unchanged exactly when it has rows and each has a product; an empty list gets the add-an-item alert |
| ReceivedInvoicePage.ProductFormError | my-next-app/src/app/received-invoice/page.tsx:240-252 | no error exactly when name and category are given and the price is positive; name is checked first, then category |
| ReceivedInvoicePage.AddNewProduct | my-next-app/src/app/received-invoice/page.tsx:239-292 | a failed check only sets its message; a created product is appended and the form reset and closed; a failed request keeps the form with an error |
| ReceivedInvoicePage.EmptiedDraftIsRefused | my-next-app/src/app/received-invoice/page.tsx:138-210 | add, remove 1, add, remove 2 empties the draft, and saving it stops at the empty-list alert |
| ListViews.ToggleSort | my-next-app/src/app/invoices/page.tsx:185-190 | the clicked column becomes the sort field, descending exactly when it was already the ascending field |
| ListViews.ToggleAlternates | my-next-app/src/app/invoices/page.tsx:185-190 | two clicks on the same column always pass through both directions |
| ListViews.ByStrOrders | my-next-app/src/app/invoices/page.tsx:163-166 | comparing a string key in either direction is a total preorder |
| ListViews.ByRealOrders | my-next-app/src/app/invoices/page.tsx:159-162 | comparing a numeric key in either direction is a total preorder |
| ListViews.SortByStr | my-next-app/src/app/invoices/page.tsx:154-169 | sorting by a string key gives a permutation ordered by that key |
| ListViews.SortByReal | my-next-app/src/app/invoices/page.tsx:154-169 | sorting by a numeric key gives a permutation ordered by that key |
| ListViews.KeepOrderKeeps | my-next-app/src/app/invoices/page.tsx:168 | the comparator answering 0 leaves the list in its order |
| ListViews.PageSlice | my-next-app/src/app/invoices/page.tsx:171-173 | at most a page of rows, consecutive rows of the list from row (page - 1) * perPage |
| ListViews.Showing | my-next-app/src/app/invoices/page.tsx:663-665 | an empty list shows 0 first; otherwise the first row number is (page - 1) * perPage + 1 and the last is at most the count |
| ListViews.ShowingMatchesSlice | my-next-app/src/app/invoices/page.tsx:663-665 | for a page that starts inside the list the footer numbers exactly the rows of the page slice |
| InvoicesPage.PendingStep | my-next-app/src/app/invoices/page.tsx:104-118 | PendingAmount is the unpaid totals less every advance; each invoice moves the pending figure by its total when unpaid, less its advance whatever its status |
| InvoicesPage.PaidAdvanceStillCounts | my-next-app/src/app/invoices/page.tsx:111-118 | a paid invoice with a positive advance lowers the pending figure |
| InvoicesPage.ComparatorSorts | my-next-app/src/app/invoices/page.tsx:154-169 | Comparator, the per-column comparator: the chosen column's comparator sorts the list; an unknown column keeps the order |
| InvoicesPage.SameElements | my-next-app/src/app/invoices/page.tsx:133-169 | lists with the same multiset have the same members |
| InvoicesPage.Matching | my-next-app/src/app/invoices/page.tsx:133-153 | Matches, the filter predicate: exactly the invoices matching the search, status and date filters |
| InvoicesPage.FilteredInvoices | my-next-app/src/app/invoices/page.tsx:133-169 | a permutation of the matching invoices ordered by the chosen column; an unknown column keeps the stored order |
| InvoicesPage.FilteredMembers | my-next-app/src/app/invoices/page.tsx:133-169 | an invoice is listed exactly when it is stored and matches the filters |
| InvoicesPage.CurrentPosts | my-next-app/src/app/invoices/page.tsx:171-173 | at most six rows, read off the filtered list from row (page - 1) * 6 |
| InvoicesPage.ChangeStatus | my-next-app/src/app/invoices/page.tsx:175-178 | the new status, back to page 1, other filters and the sort kept |
| InvoicesPage.ChangeSearch | my-next-app/src/app/invoices/page.tsx:180-183 | the new term, back to page 1, other filters and the sort kept |
| InvoicesPage.ChangeSort | my-next-app/src/app/invoices/page.tsx:185-190 | the sort toggles and the filters and page stay |
| InvoicesPage.ConfirmAdvance | my-next-app/src/app/invoices/page.tsx:894-895 | the Confirm Advance button posts the typed amount exactly when it is above 0 and at most the invoice total, so what it posts never exceeds the total and leaves a balance below it; any other amount posts nothing |
| InvoicesPage.AcceptedAdvanceKeepsPending | my-next-app/src/app/invoices/page.tsx:894 | an advance the Confirm Advance guard accepts, recorded on an unpaid invoice of the list, leaves it a Balance Due (BalanceDue, page.tsx:804) of at least 0 and below its total, which is exactly its share of the header's pending figure (page.tsx:104-118); the figure moves by the change in that invoice's advance alone |
| ReceivedPage.ComparatorSorts | my-next-app/src/app/received/page.tsx:109-124 | Comparator, the per-column comparator: the chosen column's comparator sorts the list; an unknown column keeps the order |
| ReceivedPage.Matching | my-next-app/src/app/received/page.tsx:91-107 | Matches, the filter predicate: a fetched value that is not an array gives nothing; otherwise exactly the invoices matching the search and dates |
| ReceivedPage.FilteredInvoices | my-next-app/src/app/received/page.tsx:91-124 | a permutation of the matching invoices ordered by the chosen column; nothing for a non-array; an unknown column keeps the order |
| ReceivedPage.FilteredMembers | my-next-app/src/app/received/page.tsx:91-124 | an invoice is listed exactly when it was fetched and matches |
| ReceivedPage.CurrentPosts | my-next-app/src/app/received/page.tsx:127-129 | at most six rows, read off the filtered list from row (page - 1) * 6 |
| ReceivedPage.ChangeSearch | my-next-app/src/app/received/page.tsx:131-134 | the new term and back to page 1, sort kept |
| ReceivedPage.ChangeSort | my-next-app/src/app/received/page.tsx:136-142 | the sort toggles, search and page stay |
| ReceivedPage.EmptyRangeIsSearchOnly | my-next-app/src/app/received/page.tsx:50 | with the date range that is never set, the filter is the search alone |
| SalesReportPage.QueryParams | my-next-app/src/app/sales-report/page.jsx:179-186 | both dates exactly for a custom pick with both dates set, the time frame otherwise |
| SalesReportPage.Param | my-next-app/src/app/api/invoice/salesreport/route.jsx:9-11 | a parameter read back is non-empty and was sent under that name |
| SalesReportPage.PageQueryRange | my-next-app/src/app/sales-report/page.jsx:173-189 | QueryOf reads the parameters back as the controller does: a complete custom pick is reported over its own dates; a custom pick missing a date falls to the current month; a named frame reaches the report unchanged |
| SalesReportPage.NamesOf | my-next-app/src/app/sales-report/page.jsx:201 | the product name of each row, in order |
| SalesReportPage.EntryNames | my-next-app/src/app/sales-report/page.jsx:216 | the name of each entry, in order |
| SalesReportPage.IndexOfName | my-next-app/src/app/sales-report/page.jsx:203 | the first entry with the name, or the entry count when none has it |
| SalesReportPage.AddRow | my-next-app/src/app/sales-report/page.jsx:200-214 | a known name keeps the entry count, a new one adds one entry |
| SalesReportPage.KeyPosition | my-next-app/src/app/sales-report/page.jsx:203 | a dictionary key is the name of exactly one entry |
| SalesReportPage.DistinctOnlyAt | my-next-app/src/app/sales-report/page.jsx:203 | with distinct names, an entry's name occurs only there |
| SalesReportPage.MirrorKnown | my-next-app/src/app/sales-report/page.jsx:203-205 | adding to a known name in the dictionary is one AddRow on the entries |
| SalesReportPage.AddRowKnown | my-next-app/src/app/sales-report/page.jsx:203-205 | a known name's entry gets the row's quantity and revenue added and nothing else changes |
| SalesReportPage.MirrorNew | my-next-app/src/app/sales-report/page.jsx:206-212 | inserting a new name, numbered one more than the keys, is one AddRow on the entries |
| SalesReportPage.AddRowDistinct | my-next-app/src/app/sales-report/page.jsx:200-214 | adding a row keeps the names distinct |
| SalesReportPage.AddToMap | my-next-app/src/app/sales-report/page.jsx:201-213 | one forEach step on the dictionary and its key order is one AddRow on the entries |
| SalesReportPage.BuildRevenueMap | my-next-app/src/app/sales-report/page.jsx:198-216 | the values of the dictionary after the loop are the grouped entries |
| SalesReportPage.ValuesInOrder | my-next-app/src/app/sales-report/page.jsx:216 | the values in key order are the entries |
| SalesReportPage.GroupedShape | my-next-app/src/app/sales-report/page.jsx:198-216 | Grouped, the rows folded into the dictionary by AddRow: the entries carry the distinct product names in order of first appearance, numbered 1, 2, ... |
| SalesReportPage.GroupedDistinct | my-next-app/src/app/sales-report/page.jsx:198-216 | no two entries share a name |
| SalesReportPage.AbsentNameIsZero | my-next-app/src/app/sales-report/page.jsx:198-216 | a name no row carries has zero kilos and revenue |
| SalesReportPage.TalliesStep | my-next-app/src/app/sales-report/page.jsx:200-214 | one more row keeps every entry equal to the sums of the rows with its name |
| SalesReportPage.GroupedSums | my-next-app/src/app/sales-report/page.jsx:198-216 | each entry holds the summed kilos and revenue of exactly the rows with its name |
| SalesReportPage.AddRowSums | my-next-app/src/app/sales-report/page.jsx:200-214 | one row adds its quantity and revenue to the table's totals |
| SalesReportPage.GroupedConserves | my-next-app/src/app/sales-report/page.jsx:198-216 | grouping neither loses nor invents kilos or revenue |
| SalesReportPage.TotalStats | my-next-app/src/app/sales-report/page.jsx:275-288 | zeros for a value that is not an array, else the component-wise sums of the rows |
| SalesReportPage.TableMatchesStats | my-next-app/src/app/sales-report/page.jsx:198-288 | the per-name table adds up to the revenue and quantity of the summary cards |
| SalesReportPage.CommissionDust2 | my-next-app/src/app/sales-report/page.jsx:289-298 | the base commission per active month when some entry is "dust 2" in any letter case, else 0 |
| SalesReportPage.FooterMatchesColumn | my-next-app/src/app/sales-report/page.jsx:300-311 | CommissionCalculator, the footer's reduce: the commission total equals the sum of the commission column |
| SalesReportPage.ColumnAgrees | my-next-app/src/app/sales-report/page.jsx:300-311 | with the dust-2 cell the page shows, the column sums to the commission total |
| SalesReportPage.NoDust2IsFivePercent | my-next-app/src/app/sales-report/page.jsx:300-309 | without a dust-2 entry the commission is 5% of the table's revenue |
| AdminRequestsPage.Visible | my-next-app/src/app/admin-requests/page.tsx:77-95 | exactly the fetched users of the chosen role (any for "all") matching a non-empty search term, in order |
| AdminRequestsPage.ComparatorSorts | my-next-app/src/app/admin-requests/page.tsx:98-108 | Comparator, the per-key comparator: the chosen key's comparator sorts the list |
| AdminRequestsPage.RoleStep | my-next-app/src/app/admin-requests/page.tsx:81-83 | the role filter alone keeps the users shown for an empty term |
| AdminRequestsPage.SearchStep | my-next-app/src/app/admin-requests/page.tsx:86-95 | the search on what the role step kept gives the users shown |
| AdminRequestsPage.AllShown | my-next-app/src/app/admin-requests/page.tsx:78-95 | role "all" and no term show every user |
| AdminRequestsPage.FilterUsers | my-next-app/src/app/admin-requests/page.tsx:77-111 | the result holds exactly the shown users; unsorted it keeps their order, sorted it is ordered by the key |
| AdminRequestsPage.RequestSort | my-next-app/src/app/admin-requests/page.tsx:193-203 | the clicked key becomes the sort key, descending exactly when it was already the ascending key |
| AdminRequestsPage.ToggleSelectUser | my-next-app/src/app/admin-requests/page.tsx:218-224 | an id is selected afterwards exactly when it was selected before or is the clicked one, but not both; a new one is appended |
| AdminRequestsPage.ToggleTwice | my-next-app/src/app/admin-requests/page.tsx:218-224 | toggling twice selects the same users, and for a new id gives back the very list |
| AdminRequestsPage.FilterAppendDrop | my-next-app/src/app/admin-requests/page.tsx:221 | dropping an id from a list ending in it is dropping it from the front |
| AdminRequestsPage.IdsOf | my-next-app/src/app/admin-requests/page.tsx:214 | the id of each listed user, in order |
| AdminRequestsPage.ToggleSelectAll | my-next-app/src/app/admin-requests/page.tsx:210-216 | a selection as long as the list is cleared, anything else becomes every listed id |
| AdminRequestsPage.SelectAllThenClear | my-next-app/src/app/admin-requests/page.tsx:210-216 | select-all followed by a second click clears the selection |
| AdminRequestsPage.VerifyOne | my-next-app/src/app/admin-requests/page.tsx:113-150 | on success the users with the id take the flag and nobody else changes; a failure changes nothing |
| AdminRequestsPage.VerifyBulk | my-next-app/src/app/admin-requests/page.tsx:152-191 | an empty selection or a failure changes nothing; a success sets the flag of exactly the selected users and clears the selection |
| AdminRequestsPage.VerifyIdempotent | my-next-app/src/app/admin-requests/page.tsx:134-138 | repeating a successful verification changes nothing more |
| AdminRequestsPage.BulkIsPerUser | my-next-app/src/app/admin-requests/page.tsx:172-178 | a successful bulk verification of a non-empty selection leaves the users exactly as one successful VerifyOne per selected id, in turn, would, and clears the selection |
| AdminRequestsPage.VerifyEachFlags | my-next-app/src/app/admin-requests/page.tsx:133-138 | after one VerifyOne per listed id a user carries the new flag exactly when its id is listed, and is otherwise unchanged |
| TopSoldPage.CategoriesOf | my-next-app/src/app/top-sold/page.jsx:33 | the category of each product, in order |
| TopSoldPage.UniqueCategories | my-next-app/src/app/top-sold/page.jsx:33 | "all" first, then every product's category once, each from the list |
| TopSoldPage.RequestSort | my-next-app/src/app/top-sold/page.jsx:48-54 | the clicked column becomes the key, ascending exactly when it was already the descending key |
| TopSoldPage.RequestSortTwice | my-next-app/src/app/top-sold/page.jsx:48-54 | two clicks on a new column give descending, then ascending |
| TopSoldPage.AvgOrderValue | my-next-app/src/app/top-sold/page.jsx:64-66 | over TotalSales and TotalRevenue, the summary cards' sums: with units sold it is revenue per unit, otherwise 0 |
| TopSoldPage.FilteredProducts | my-next-app/src/app/top-sold/page.jsx:69-71 | every product for "all", otherwise exactly those of the category |
| TopSoldPage.ComparatorSorts | my-next-app/src/app/top-sold/page.jsx:73-81 | Comparator, the per-key comparator: the chosen key's comparator sorts the list |
| TopSoldPage.SortedProducts | my-next-app/src/app/top-sold/page.jsx:69-81 | a permutation of the filtered products ordered by the chosen key |
| TopSoldPage.MaxRevenue | my-next-app/src/app/top-sold/page.jsx:84 | none exactly for an empty report; otherwise a revenue of the report no revenue exceeds |
| TopSoldPage.BarAtMostFull | my-next-app/src/app/top-sold/page.jsx:247 | a bar of non-negative revenue is at most full width |
| TopSoldPage.ShownCategories | my-next-app/src/app/top-sold/page.jsx:275-276 | exactly the products' categories other than "all" |
| TopSoldPage.CategoriesPartition | my-next-app/src/app/top-sold/page.jsx:277-279 | over distinct categories the per-category totals add up to the total of the products in any of them |
| TopSoldPage.FilterDistinct | my-next-app/src/app/top-sold/page.jsx:276 | filtering distinct categories keeps them distinct |
| TopSoldPage.ShownDistinct | my-next-app/src/app/top-sold/page.jsx:275-276 | the listed categories are distinct |
| TopSoldPage.ShownSelectsOthers | my-next-app/src/app/top-sold/page.jsx:275-278 | the products of the listed categories are those not filed under "all" |
| TopSoldPage.OthersWeigh | my-next-app/src/app/top-sold/page.jsx:275-279 | those products weigh the total less the products filed under "all" |
| TopSoldPage.DistributionCoversTotal | my-next-app/src/app/top-sold/page.jsx:275-280 | the distribution adds up to the total less the products filed under "all" |
| TopSoldPage.PercentagesAddUp | my-next-app/src/app/top-sold/page.jsx:275-280 | Percent, the distribution's share of each category (0 for a zero total): with nothing filed under "all" and a non-zero total, the percentages add up to 100 |
| TopSoldPage.PercentsOfWhole | my-next-app/src/app/top-sold/page.jsx:280 | parts of a non-zero whole, in percent, add up to 100 |
| TopSoldPage.NoneFiledUnderAll | my-next-app/src/app/top-sold/page.jsx:278-279 | with no product filed under "all" its total is 0 |
| TopSoldPage.ScaleToPercent | my-next-app/src/app/top-sold/page.jsx:280 | the percentages sum to the scaled sum |
| CustomersPage.WithTotals | my-next-app/src/app/customers/page.tsx:44-51 | only the total and last purchase change: the lookup's figures, or 0 and none when the lookup throws |
| CustomersPage.LoadCustomers | my-next-app/src/app/customers/page.tsx:42-53 | one decorated customer per fetched one, in order |
| CustomersPage.HandleSort | my-next-app/src/app/customers/page.tsx:87-94 | the clicked field becomes the sort field; the same field flips the direction, a new one sorts ascending |
| CustomersPage.HandleSortIsToggle | my-next-app/src/app/customers/page.tsx:87-94 | the handler agrees with the column toggle of the other lists |
| CustomersPage.Matching | my-next-app/src/app/customers/page.tsx:105-110 | Matches, the filter predicate: exactly the customers whose name or email contains the term case-insensitively or whose phone contains it as typed |
| CustomersPage.SourceInconsistent | my-next-app/src/app/customers/page.tsx:115-116 | in both directions two customers without a date compare on the same side of each other: -1 both ways ascending, 1 both ways descending, so compare(a, b) and compare(b, a) do not have opposite signs |
| CustomersPage.LastPurchaseAgrees | my-next-app/src/app/customers/page.tsx:114-119 | whenever at least one of two customers has a date, the page's comparator gives them opposite signs in the two orders, and the corrected order puts a first exactly when compare(a, b) is at most 0 |
| CustomersPage.LastPurchaseOrders | my-next-app/src/app/customers/page.tsx:114-119 | the corrected last-purchase order is a total preorder in both directions |
| CustomersPage.ComparatorSorts | my-next-app/src/app/customers/page.tsx:111-128 | Comparator, the per-column comparator: the chosen column's comparator sorts the list |
| CustomersPage.FilteredCustomers | my-next-app/src/app/customers/page.tsx:105-128 | a permutation of the matching customers ordered by the chosen column |
| CustomersPage.MissingFirstAscending | my-next-app/src/app/customers/page.tsx:115 | ascending by last purchase, customers without one come first |
| CustomersPage.MissingLastDescending | my-next-app/src/app/customers/page.tsx:115-116 | descending, customers without one come last |
| CustomersPage.FilteredMembers | my-next-app/src/app/customers/page.tsx:105-128 | a customer is listed exactly when loaded and matching |
| ProductsPage.Filtered | my-next-app/src/app/products/page.tsx:94-100 | Matches, the search predicate: an empty term shows every product; otherwise exactly the products whose name or category contains the term case-insensitively, in order |
| ProductsPage.EmptyTermMatchesAll | my-next-app/src/app/products/page.tsx:94-100 | every product matches the empty term |
| ProductsPage.UpdateProduct | my-next-app/src/app/products/page.tsx:60-69 | on success every product with the edited id becomes the edited product; a failure changes nothing |
| ProductsPage.AddProduct | my-next-app/src/app/products/page.tsx:86-91 | on success the created product is appended; a failure changes nothing |
| ProductsPage.DeleteProduct | my-next-app/src/app/products/page.tsx:188-197 | on success exactly the products with other ids remain; a failure changes nothing |
| ProductsPage.UpdateIdempotent | my-next-app/src/app/products/page.tsx:60-65 | updating twice with the same product is updating once |
| ProductsPage.UpdateReplaces | my-next-app/src/app/products/page.tsx:60-65 | after an update every listed product with the id is the edited one, and it is listed when the id was |
| ProductsPage.AddThenDelete | my-next-app/src/app/products/page.tsx:86-197 | deleting a just-added product with a new id gives the list back |
| ProductsPage.FilterAppendDropped | my-next-app/src/app/products/page.tsx:196 | a dropped last element leaves the filter unchanged |
| ProductsPage.DeleteIdempotent | my-next-app/src/app/products/page.tsx:196 | deleting twice is deleting once |
| ProductStockPage.CurrentPosts | my-next-app/src/app/products/page.jsx:83-85 | at most six products, read off the list from row (page - 1) * 6 |
| ProductStockPage.PageThenSearch | my-next-app/src/app/products/page.jsx:87-93 | only products of the current page that match are found; an empty term shows the page |
| ProductStockPage.SearchMissesOtherPages | my-next-app/src/app/products/page.jsx:83-93 | with seven products, searching page 1 for the name of the seventh finds nothing although it matches |
| ProductStockPage.SearchThenPage | my-next-app/src/app/products/page.jsx:83-93 | at most six products, read off the filtered whole list from row (page - 1) * 6 |
| ProductStockPage.EveryMatchHasAPage | my-next-app/src/app/products/page.jsx:83-93 | every matching product is on the page its position in the filtered list gives |
| ProductStockPage.NumberOf | my-next-app/src/app/products/page.jsx:208 | "" is 0, a run of digits its value, anything else NaN |
| ProductStockPage.GramsPerUnit | my-next-app/src/app/products/page.jsx:199-210 | the grams per unit of a category are never negative |
| ProductStockPage.KgOf | my-next-app/src/app/products/page.jsx:199-210 | the kilograms shown are the amount times the category's grams per unit over 1000, NaN exactly when the grams per unit are |
| ProductStockPage.GramCategory | my-next-app/src/app/products/page.jsx:206-210 | a category written as a gram count and "g" converts at that many grams per unit |
| ProductStockPage.NamedCategories | my-next-app/src/app/products/page.jsx:199-205 | bulk counts as kilograms, a tea bag as 2 g and "sample 20g" as 20 g, in any letter case |
| ProductStockPage.WordCategoryIsNaN | my-next-app/src/app/products/page.jsx:206-210 | a word category without a leading gram count shows NaN kilograms |
| ProductStockPage.StockValue | my-next-app/src/app/products/page.jsx:235-239 | a value exactly when there is stock, and then stock times price |
| ProductStockPage.ValuedStockNonNegative | my-next-app/src/app/products/page.jsx:235-239 | a priced product in stock is never valued below zero |
| DashboardPage.StripNonNumeric | my-next-app/src/app/dashboard/page.tsx:97 | only digits, dots and minus signs remain, every one of them, and no more characters than before |
| DashboardPage.Previous | my-next-app/src/app/dashboard/page.tsx:95-98 | a stored number as it is, a stored string stripped then parsed, nothing for an absent one |
| DashboardPage.Percentage | my-next-app/src/app/dashboard/page.tsx:94-102 | 0 for a missing, NaN or zero previous value; otherwise the relative change in percent rounded down |
| DashboardPage.PercentageLandmarks | my-next-app/src/app/dashboard/page.tsx:100-101 | the same figure is 0, double is 100, half is -50 |
| DashboardPage.PercentageSign | my-next-app/src/app/dashboard/page.tsx:100-101 | from a positive figure growth is never negative and decline always is |
| DashboardPage.SaveStats | my-next-app/src/app/dashboard/page.tsx:124-134 | the saved figures are the four fetched numbers |
| DashboardPage.ComputeChanges | my-next-app/src/app/dashboard/page.tsx:90-122 | no change while nothing is saved; otherwise each figure against its saved one |
| DashboardPage.SavedFiguresRoundTrip | my-next-app/src/app/dashboard/page.tsx:90-134 | figures saved by the page read back as numbers and the same figures again show no change |
| DashboardPage.RenderChange | my-next-app/src/app/dashboard/page.tsx:203-216 | an up arrow exactly for a positive change, showing its magnitude |
| DashboardPage.ZeroShowsDown | my-next-app/src/app/dashboard/page.tsx:204-205 | no change is drawn as a down arrow |
| DashboardPage.TopProducts | my-next-app/src/app/dashboard/page.tsx:144-158 | the first five products, in the server's order |
| DashboardPage.RecentInvoices | my-next-app/src/app/dashboard/page.tsx:169-187 | one row per invoice, in order, keyed by the invoice number |
| ConfirmationEmail.MonthName | my-next-app/src/lib/templates/confirmationEmail.ts:416-418 | a month name exactly for an index from 0 to 11 |
| ConfirmationEmail.MonthNamesDistinct | my-next-app/src/lib/templates/confirmationEmail.ts:19-32 | different months get different names, 0 is January and 11 December |
| ConfirmationEmail.SalesTotalsAppend | my-next-app/src/lib/templates/confirmationEmail.ts:35-46 | TotalSales and TotalSalesKg, the e-mail's summed revenue and kilograms: the totals of a split list are the sums of the parts' totals |
| ConfirmationEmail.SalesTotalsSingle | my-next-app/src/lib/templates/confirmationEmail.ts:35-46 | one entry's totals are its own figures |
| ConfirmationEmail.Rate | my-next-app/src/lib/templates/confirmationEmail.ts:471-484 | no rate exactly for zero kilograms; otherwise the rate times the kilograms is the revenue |
| ConfirmationEmail.NetSalesAverage | my-next-app/src/lib/templates/confirmationEmail.ts:47 | no average exactly for zero total kilograms; otherwise the average times the kilograms is the revenue |
| ConfirmationEmail.SalesRows | my-next-app/src/lib/templates/confirmationEmail.ts:471-484 | one row per entry, in order |
| ConfirmationEmail.SalesFooterMatchesRows | my-next-app/src/lib/templates/confirmationEmail.ts:471-491 | the TOTAL row adds up the revenue and kilograms of the rows above it |
| ConfirmationEmail.NonZeroStock | my-next-app/src/lib/templates/confirmationEmail.ts:50 | exactly the items with stock above zero |
| ConfirmationEmail.NonZeroStockKeepsOrder | my-next-app/src/lib/templates/confirmationEmail.ts:50 | the filter keeps list order across a split |
| ConfirmationEmail.NonZeroStockSingle | my-next-app/src/lib/templates/confirmationEmail.ts:50 | an item is listed exactly when it has stock |
| ConfirmationEmail.InventoryRows | my-next-app/src/lib/templates/confirmationEmail.ts:520-535 | one row per item in stock, in order |
| ConfirmationEmail.InventoryFooterMatchesRows | my-next-app/src/lib/templates/confirmationEmail.ts:520-531 | TotalStockAmount, the footer's sum over every item: with no negative stock the inventory footer is the sum of the value column |
| ConfirmationEmail.InventoryRowsCons | my-next-app/src/lib/templates/confirmationEmail.ts:520-535 | an item heads the table when it has stock and is skipped otherwise |
| ConfirmationEmail.OutOfStockWorthless | my-next-app/src/lib/templates/confirmationEmail.ts:38-46 | an item without stock is worth nothing |
| ConfirmationEmail.NegativeStockCountsInFooter | my-next-app/src/lib/templates/confirmationEmail.ts:38-50 | an item of stock -1 at price 10 shows no row but takes 10 off the footer |
| AdminControllers.AdminStore.constructor | my-next-app/src/lib/controllers/adminControllers/Admin.controllers.tsx:3-7 | the store starts with no admins, no credentials and no cookies |
| UserService.UserTable.constructor | backend/src/main/java/com/backend/backend/service/UserService.java:20-23 | the repository starts with no users and no response cookies |
| CustomerService.CustomerTable.constructor | backend/src/main/java/com/backend/backend/service/CustomerService.java:12-15 | the repository starts empty |
| InvoiceStore.SalesDb.constructor | my-next-app/src/lib/controllers/invoiceControllers/Invoice.controllers.jsx:1-3 | the invoice, product and received-invoice collections start empty |
| CustomerService.FirstIndex | backend/src/main/java/com/backend/backend/service/CustomerService.java:40 | the position of a row with the id |
| CustomerService.FindFirst | backend/src/main/java/com/backend/backend/service/CustomerService.java:40 | when every row with the id is the same, the lookup finds it |
| InvoiceNumbers.SplitDashed | my-next-app/src/lib/controllers/invoiceControllers/Invoice.controllers.tsx:115 | splitting a number laid out as the dashed heads then dashless digits on '-' gives the heads, then the digits |
| InvoiceNumbers.YearlyPattern | my-next-app/src/lib/controllers/invoiceControllers/Invoice.controllers.tsx:105-106 | the yearly pattern is "INV-<year>-" |
| InvoiceNumbers.OnlyIsNewest | my-next-app/src/lib/controllers/recievedControllers/recieved.controllers.jsx:66-70 | a single matching received invoice is the newest |

## Left out

**Stores, I/O and oracles**
- Database drivers: Mongoose and the Spring repositories are in-memory values or class fields. Connection handling, driver errors and the `connectDB` process exit are not modelled.
- Mongo `$lookup`: it is a given category function.
- Output order: the order of Mongo `$group` output and of `Object.keys` is taken as first-appearance order.
- Cryptography and tokens: bcrypt, `jwt.sign`, the `atob`/`decodeURIComponent`/`JSON.parse` payload decoding, and the Spring password encoder, authenticator and token generator are function parameters. No salt, hash strength, signature or expiry property is stated, because the code checks neither a signature nor an expiry.
- HTTP: cookies, redirects and headers are recorded as data. Cookie jars, `NextResponse` and `HttpServletResponse` are not modelled.
- Clocks and timers: `new Date()`, `getFullYear`, `getMonth` and the week and month bounds of the report are parameters. `setTimeout` delays are not modelled.
- Browser storage: `localStorage` reads and writes are not modelled. The dashboard's saved figures are a parameter.
- Concurrency: `Promise.all` and the parallel per-customer fetches run in sequence. The received-stock property is stated only for items naming distinct products, because the read-then-`$set` race for a repeated product is not modelled.
- Role gating: the pages' `fetchRole` role gating is a plain fetch of the caller's role and is not modelled.
- Other files: the thin API routes, the UI-only pages, `CustomerController` and the other thin wrappers and schema files are not part of this model. The `CustomerController` answers 200 or 201 whatever the service returns.

**Numbers and text**
- Floating point: money is `real`, with no rounding. `toFixed`, `toLocaleString`, `toLocaleDateString`, HTML markup and display strings are not modelled.
- Per-kilogram prices: the e-mail's rates (ConfirmationEmail.Rate, ConfirmationEmail.NetSalesAverage) are modelled, with a division by zero, which JavaScript renders as NaN or Infinity, given as None. The sales-report page's price-per-kg column (sales-report/page.jsx, the `/kg` and `/g` cells) and all `toFixed(2)` rounding are not modelled.
- Top-sold percentages: a zero total gives NaN or Infinity in JavaScript. The model shows 0 instead (TopSoldPage.Percent, TopSoldPage.PercentOf); TopSoldPage.PercentagesAddUp and TopSoldPage.PercentsOfWhole are stated for a non-zero total only.
- `parseInt` NaN: it is None (Common.ParseInt, Common.ParseSignedInt). `parseFloat` is a parameter.
- Common.ParseInt: reads only a leading run of decimal digits. It is used for the dash-separated fields of invoice numbers, which hold no '-'; the leading white space, '+' sign and `0x` prefix that JavaScript's `parseInt` also accepts are not read.
- Common.ParseSignedInt: skips leading ASCII white space and reads one '+' or '-' sign, as JavaScript's `parseInt` does. A `0x` or `0X` prefix, read as hexadecimal by `parseInt`, is read here as 0 followed by other characters; a number input never yields it.
- Common.ToLower: lowers only the ASCII letters A-Z. JavaScript's `toLowerCase` also lowers accented and other non-ASCII letters, so every case-insensitive search (InvoicesPage.Matching, ReceivedPage.Matching, CustomersPage.Matching, ProductsPage.Filtered, AdminRequestsPage.Visible) and the "dust 2" test in SalesReportPage.CommissionDust2 treat non-ASCII capitals as distinct from their lower-case forms.
- Common.IsSpace: covers the six ASCII white-space characters. The `\s` of a JavaScript regular expression also matches the no-break space, the line and paragraph separators and the other Unicode spaces, so Signup.ValidEmailIsShape accepts some addresses holding those characters that the page rejects.
- NewInvoicePage.UpdateItemField: the issued-invoice quantity input passes `parseInt(value)` on with no fallback (newInvoice/page.tsx:452-459). An emptied field stores NaN, and the row total, subtotal, tax and total all become NaN. The model's quantities are integers, so NewInvoicePage.QuantityEdit gives None for that input and no edit is applied; NewInvoicePage.RunKeepsBalance covers only parsed quantities.
- `Number()`: it is modelled only for "" and runs of digits, the only strings a category prefix reaches in the cases proved.
- String comparison: `<`, `new Date(…)` comparisons of ISO dates and `localeCompare` are all code-point order (Common.StrLt). JavaScript's `<` compares UTF-16 code units, which differs from code-point order only between a character above U+FFFF and one from U+E000 to U+FFFF; no date or invoice number holds either.
- InvoicesPage.ComparatorSorts, CustomersPage.ComparatorSorts and ReceivedPage.ComparatorSorts: the customer-name, name and supplier columns sort with `localeCompare`, a locale collation that, unlike the model's code-point order, puts "a" before "B". The model's order is total and agrees with the collation on names made of lower-case ASCII letters alone.
- Common.JsLength: Signup.Has8Chars and Signup.PasswordStrength count UTF-16 code units, as `.length` does. Every other string length in the model (the zero padding of invoice counters) is taken over ASCII digits, where characters and code units agree.
- `Math.max` of an empty list: it is None.
- ProductStockPage.NumberOf: it maps every string other than "" and a run of ASCII digits to NaN (None). `Number()` also accepts decimals, signs and surrounding spaces, which no category prefix in the cases proved contains.
- DashboardPage.Percentage: `parseFloat` of a stored string is a parameter, not JavaScript's parser.
- SalesReportPage.CommissionDust2 and SalesReportPage.CommissionCalculator: `activeMonths` (from a request not shown) is a parameter.
- InvoicesPage.AcceptedAdvanceKeepsPending: the advancePayment controller behind `/api/invoice/advance` is not part of this model; the lemma takes the accepted amount to be stored as the invoice's `advance`.
- AdminControllers.GetStatistics: the customer and product counts (`countDocuments`) are parameters, and a failing count is not modelled.

**Queries, comparators and contracts**
- Error paths: `getInvoiceById`, `getRecievedInvoiceById` and `getInvoicesOfCustomer` only forward driver errors. They are modelled as plain lookups.
- CustomerService.CustomerTable.DeleteCustomer: a repository exception is the `fails` parameter. Deleting an unknown id answers 200, because `deleteById` is not taken to throw for a missing id.
- InvoiceQueries.AllInvoices: models the `.jsx` version, which sorts by date. The `.tsx` `getAllInvoices` applies no sort and returns the store order.
- TopSoldPage.ComparatorSorts: a sort key no product carries compares every pair equal, so the sort keeps the input order. Comparisons of `undefined` are not modelled further.
- AdminRequestsPage.ComparatorSorts: a sort key the user record lacks reads as "" for every user, so it keeps the input order.
- ConfirmationEmail.InventoryFooterMatchesRows: requires that no stock be negative. ConfirmationEmail.NegativeStockCountsInFooter shows the footer and the rows disagreeing otherwise.
- InvoiceStore.SalesDb.CreateInvoice: requires a document id not yet in the store, because the store generates fresh ids.
- InvoiceStore.SalesDb.CreateReceivedInvoice: requires a receipt id not yet in the store, for the same reason: Mongo generates a fresh ObjectId for each saved document.

## Findings

| source | as written | input that shows it | evidently intended | confidence | as-written member | corrected member |
|---|---|---|---|---|---|---|
| my-next-app/src/lib/controllers/invoiceControllers/Invoice.controllers.tsx:105-117 | the newest number is the string maximum, so a 5-digit counter sorts below 4-digit ones | store holding INV-y-9999 and INV-y-10000: the next number is INV-y-10000 again | the next number is one past the largest counter, so it is always fresh | high (not executed) | InvoiceNumbers.YearlyRepeatsAfter9999 | InvoiceNumbers.CorrectedPastPadding |
| my-next-app/src/lib/controllers/invoiceControllers/Invoice.controllers.jsx:113-125 | the same string maximum over `INV-NNNNN` numbers | store holding INV-99999 and INV-100000: the next number is INV-100000 again | the next number is always fresh | high (not executed) | InvoiceNumbers.IssuedRepeatsAfter99999 | InvoiceNumbers.CorrectedIsFresh |
| my-next-app/src/lib/controllers/adminControllers/Admin.controllers.tsx:35 | the session token carries only `{id}` | any successful admin login, then a request to /dashboard: the gate redirects to "/" because role and isVerified are absent | the token carries id, role and isVerified | high (not executed) | Middleware.LoginTokenAlwaysRejected | Middleware.SessionTokenAdmitsVerifiedAdmin |
| my-next-app/src/app/signup/page.tsx:28 | isOneAdmin takes getAdminCount's value, which is true when there are no admins | empty admin collection: submission is blocked and "Admin exists" is shown | the form is blocked only when an admin exists | high (not executed) | Signup.NoAdminBlocksSignup | Signup.CorrectedCheckAllowsFirstAdmin |
| my-next-app/src/middleware.tsx:101 | the matcher lists "/recieved-invoice" while the page lives at "/received-invoice" | a viewer requesting /received-invoice is not gated at all | the received-invoice editor is gated like /newInvoice | high (not executed) | Middleware.ReceivedEditorUngated | Middleware.ReceivedEditorGatedCorrected |
| my-next-app/src/lib/controllers/invoiceControllers/Invoice.controllers.jsx:83 | `b.date - a.date` on string dates is NaN, so the sort keeps store order | invoices stored with dates 2024-01-01 then 2024-06-01: lastPurchaseDate is 2024-01-01 | lastPurchaseDate is the latest date | high (not executed) | InvoiceQueries.FirstStoredDateWins | InvoiceQueries.LatestPurchase |
| my-next-app/src/app/newInvoice/page.tsx:155 | addItem gives the new item id = length + 1 | start from one item (id 1), add, remove id 1, add: both items have id 2, and removing id 2 empties the list | the new id is fresh | high (not executed) | ItemEditor.RemoveCanEmpty | ItemEditor.AddItemFresh |
| my-next-app/src/app/products/page.jsx:83-93 | the search filters only the current page | seven products, the seventh named "x": searching "x" on page 1 finds nothing | the search covers the whole list, then pages | high (not executed) | ProductStockPage.SearchMissesOtherPages | ProductStockPage.EveryMatchHasAPage |
| my-next-app/src/app/customers/page.tsx:115-116 | a customer without lastPurchase compares before every other ascending and after every other descending, including another without one | two customers without a purchase date: ascending, each compares before the other (-1 both ways); descending, each compares after the other (1 both ways) | customers without a date are equal, first ascending and last descending | medium (not executed) | CustomersPage.SourceInconsistent | CustomersPage.LastPurchaseOrders |
