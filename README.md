# Bookstore ordering system: cart, forms and catalogue logic in Dafny

This project models and verifies the parts of the bookstore ordering system that make decisions of their own. The rest of the system is a web UI, Flask routing and MySQL access.

- **Cart store** (`CartStorage.dfy`). This is the browser cart kept in local storage. `CartStore` is a class whose `slot` field stands for the storage entry. Its methods read the slot, change the line list and write it back, as the source does. The functions `AddLine`, `Without` and `SetQuantity` specify the new line list. `Count` and `Total` are the two folds. The ISBN matching rule is `Matches` and `FirstMatch`.
- **Debounced quantity editor** (`CartBook.dfy`). This is one cart line's plus and minus buttons and the 500 ms debounce.
  - It runs on a virtual clock. `Step` and `Run` are state-machine functions.
  - The class `CartLineEditor` holds the component state and has one method per event. Each method is proved equal to `Step`.
- **Sign-up and sign-in forms** (`FormText.dfy`, `RegisterForm.dfy`, `LoginForm.dfy`).
  - They model the zod schemas as lists of issues. Each string check records its own issue, and the password-match check runs whatever the field checks found.
  - The JavaScript password regex is modelled exactly. It is unanchored, and `.` does not cross a line break.
  - They also model the page chosen after sign-in and what the sign-up page does with the reply.
- **Catalogue writes** (`AdminModels.dfy`). These are `create_book`, `update_book`, `delete_book` and `confirm_publisher_order`.
  - They work over an in-memory copy of the tables. The functions ending in `Result` are the specification. `Catalog` is a class whose methods update the tables step by step and are proved equal to those functions.
  - `update_book` builds its SET clause one conditional append at a time. The proofs show that its statement has one `%s` per parameter.
- **Route decisions** (`AdminRoutes.dfy`, `BookRoutes.dfy`). These map a request and a model result to a status code and a JSON message.
- **Catalogue page query** (`BookModels.dfy`). `get_books_model` grows its SELECT statement and parameter list filter by filter.
- **Shared modules.**
  - `Py.dfy`: Python and JSON values, truthiness, `dict.get`, and iteration.
  - `SqlText.dfy`: counting `%s` markers and joining fragments.
  - `Wrappers.dfy`: `Option`.

Prices are whole cents, so there is no floating point. Time is a virtual millisecond clock.

Database errors that depend on data the model does not hold are a parameter: `engine` in `CreateBookResult` is the error the book INSERT raises, such as a `publisher_id` naming no publisher, before any author is inserted. So are the results of calls the routes make into model code that is not present.

### Where the model chooses a reading

- **Debounce edge case.** A timer and a request can fall due at the same millisecond. The model runs the due timer first. `SupersededRequest` and `RequestAtDueTime` show what this means: requests at 0, 100 and 599 ms report only the last count, while a last request at 600 ms also reports the count requested at 100 ms. One might expect the 600 ms change to supersede the 100 ms one; that holds only if the browser handles the click before the timer that falls due at the same instant.
- **Where sign-in returns to.** The sign-in page compares the stored `lastPage` with `/auth/login`, the sign-in route next-auth is configured with, but the page itself is served at `/authentication/login`. So a stored `/authentication/login` is gone back to after signing in (`SignInPageCanBeChosen`). The sign-up page likewise sends a new user to `/auth/login`.
- **Unreachable 404 for replenishment.** `get_replenishment_history` runs a `COUNT(...)` query without `GROUP BY`, which always returns one row (`ReplenishmentQuery`). So the 404 branch of `report_replenishment_history` is never taken (`ReplenishmentNeverNotFound`).
- **Return value of `update_book`.** It returns the `rowcount` of the last statement the cursor ran.
  - With `authors` given, that is the last author INSERT, or the DELETE when the list is empty. So clearing the authors of a book that has none reports "No changes made" even when the title changed (`TitleWithEmptyAuthors`).
  - Without `authors`, it is the UPDATE, whose `rowcount` counts only rows whose values changed.
- **Dropped connections discard writes.** A call that raises leaves the tables unchanged, because its connection is closed without a commit at the end of the request.

## Model

| member | source | states |
|---|---|---|
| CartStorage.FirstMatch | Frontend/ordering_system/src/helpers/cartStorage.ts:19-21 | the position found is the first line whose `isbn` or `ISBN_number` equals the key; none is found exactly when no line matches |
| CartStorage.AddLine | Frontend/ordering_system/src/helpers/cartStorage.ts:17-27 | a matching line grows by the quantity, and the length and every other line are unchanged; with no match, `{book, quantity}` is appended after the existing lines |
| CartStorage.SetQuantity | Frontend/ordering_system/src/helpers/cartStorage.ts:40-49 | the first matching line holds `max(1, q)` and the other lines are untouched; with no match, the cart is returned unchanged |
| CartStorage.Without | Frontend/ordering_system/src/helpers/cartStorage.ts:34-36 | plain definition: the lines that do not match, in order; `WithoutNoMatch`, `WithoutKeepsOthers`, `WithoutConcat`, `WithoutIdempotent` and `WithoutAbsent` carry its properties |
| CartStorage.UnitPrice | Frontend/ordering_system/src/helpers/cartStorage.ts:63 | plain definition: `price \|\| selling_price \|\| 0`, with 0 and absent falsy; `TotalAfterAdd` and `TwoLineCart` use it |
| CartStorage.Count | Frontend/ordering_system/src/helpers/cartStorage.ts:55-58 | plain definition: the quantities summed left to right; `CountConcat`, `CountUpdate`, `CountAfterAdd` and `CountAfterSetQuantity` carry its properties |
| CartStorage.Total | Frontend/ordering_system/src/helpers/cartStorage.ts:60-66 | plain definition: unit price times quantity, summed left to right; `TotalConcat`, `TotalUpdate` and `TotalAfterAdd` carry its properties |
| CartStorage.CountConcat | Frontend/ordering_system/src/helpers/cartStorage.ts:55-58 | the quantity sum of two carts joined is the sum of their sums |
| CartStorage.TotalConcat | Frontend/ordering_system/src/helpers/cartStorage.ts:60-66 | the price total of two carts joined is the sum of their totals |
| CartStorage.CountUpdate | Frontend/ordering_system/src/helpers/cartStorage.ts:55-58 | replacing one line changes the count by the difference of the two quantities |
| CartStorage.TotalUpdate | Frontend/ordering_system/src/helpers/cartStorage.ts:60-66 | replacing one line changes the total by the difference of the two line totals |
| CartStorage.CountAfterAdd | Frontend/ordering_system/src/helpers/cartStorage.ts:17-27 | adding `q` copies raises the item count by exactly `q` |
| CartStorage.TotalAfterAdd | Frontend/ordering_system/src/helpers/cartStorage.ts:60-66 | adding `q` copies raises the total by `q` times the unit price of the charged line's book: the book already stored when a line matches, otherwise the new book (`price \|\| selling_price \|\| 0`) |
| CartStorage.CountAfterSetQuantity | Frontend/ordering_system/src/helpers/cartStorage.ts:40-49 | updating a line's quantity changes the count by the clamped new quantity minus the old one |
| CartStorage.QuantitiesStayPositive | Frontend/ordering_system/src/helpers/cartStorage.ts:46 | `updateQuantity` never leaves a line below one copy; adding one or more copies keeps every line positive |
| CartStorage.WithoutNoMatch | Frontend/ordering_system/src/helpers/cartStorage.ts:34-36 | no line left by `removeFromCart(isbn)` matches `isbn` |
| CartStorage.WithoutKeepsOthers | Frontend/ordering_system/src/helpers/cartStorage.ts:34-36 | every non-matching line is kept as often as it occurred, and every matching line is gone |
| CartStorage.WithoutConcat | Frontend/ordering_system/src/helpers/cartStorage.ts:34-36 | the filter works line by line, so the kept lines stay in their original order |
| CartStorage.WithoutIdempotent | Frontend/ordering_system/src/helpers/cartStorage.ts:32-38 | removing the same ISBN twice leaves what removing it once left |
| CartStorage.WithoutAbsent | Frontend/ordering_system/src/helpers/cartStorage.ts:34-36 | removing an ISBN no line carries leaves the cart unchanged |
| CartStorage.AddAllExisting | Frontend/ordering_system/src/helpers/cartStorage.ts:19-24 | once a line matches a book, every further add of it lands on that line, which ends with the sum of the quantities |
| CartStorage.FirstMatchUnchanged | Frontend/ordering_system/src/helpers/cartStorage.ts:19-24 | changing the quantity of the first matching line keeps it the first match |
| CartStorage.AddAllFresh | Frontend/ordering_system/src/helpers/cartStorage.ts:25-27 | repeatedly adding a book no line matches gives exactly one line for it, appended at the end with the sum of the quantities |
| CartStorage.AppendedIsFirstMatch | Frontend/ordering_system/src/helpers/cartStorage.ts:25-27 | an appended line is the first match for its key when nothing before it matched |
| CartStorage.TwoLineCart | Frontend/ordering_system/src/helpers/cartStorage.ts:55-66 | two copies at 1000 cents and one at 2500 cents count 3 and total 4500 cents |
| CartStorage.AbsentIsbnMergesIntoOtherLine | Frontend/ordering_system/src/helpers/cartStorage.ts:20 | a book with only `ISBN_number` has `isbn` undefined, which equals the missing `ISBN_number` of a front-end line, so it is merged into that line |
| CartStorage.CartStore.GetCart | Frontend/ordering_system/src/helpers/cartStorage.ts:11-15 | empty when there is no window or nothing is stored; otherwise the stored lines |
| CartStorage.CartStore.GetCartCount | Frontend/ordering_system/src/helpers/cartStorage.ts:55-58 | plain definition: `Count` of the lines read; `ClearCart` and the `Count` lemmas state its values |
| CartStorage.CartStore.GetTotalPrice | Frontend/ordering_system/src/helpers/cartStorage.ts:60-66 | plain definition: `Total` of the lines read; `ClearCart` and the `Total` lemmas state its values |
| CartStorage.CartStore.AddToCart | Frontend/ordering_system/src/helpers/cartStorage.ts:17-30 | the slot afterwards holds `AddLine` of the lines read; `quantity` is 1 when not given |
| CartStorage.CartStore.RemoveFromCart | Frontend/ordering_system/src/helpers/cartStorage.ts:32-38 | the slot afterwards holds the lines read, without those matching the ISBN |
| CartStorage.CartStore.UpdateQuantity | Frontend/ordering_system/src/helpers/cartStorage.ts:40-49 | with a match, the slot holds `SetQuantity` of the lines read; with none, the slot is not written |
| CartStorage.CartStore.ClearCart | Frontend/ordering_system/src/helpers/cartStorage.ts:51-53 | the entry is removed, so the cart is empty and its count and total are 0 |
| CartBook.Step | Frontend/ordering_system/src/components/books/CartBook.tsx:25-96 | plain definition: the state machine of one line (request, plus, minus, clock, new prop); `StepKeepsValid`, `RequestReplacesPending`, `MinusRule` and `StepReports` carry its properties, and every `CartLineEditor` method is proved equal to it |
| CartBook.StepKeepsValid | Frontend/ordering_system/src/components/books/CartBook.tsx:28-41 | at most one commit is pending; it carries the displayed count and is due within the next 500 ms, and every event keeps this so |
| CartBook.RequestReplacesPending | Frontend/ordering_system/src/components/books/CartBook.tsx:28-41 | a request displays its count at once and replaces any pending commit by one for that count, due 500 ms later; nothing is reported |
| CartBook.MinusRule | Frontend/ordering_system/src/components/books/CartBook.tsx:84-96 | minus does nothing while the committed `item.count` is 1, whatever is displayed; otherwise minus requests displayed − 1, and plus always requests displayed + 1 |
| CartBook.StepReports | Frontend/ordering_system/src/components/books/CartBook.tsx:31-35 | only a timer that falls due reports anything, and it reports at most its own count, and only when that differs from the captured `item.count` |
| CartBook.BurstReportsNothing | Frontend/ordering_system/src/components/books/CartBook.tsx:28-41 | during requests less than 500 ms apart nothing is reported; the last one is displayed and pending |
| CartBook.BurstThenQuiet | Frontend/ordering_system/src/components/books/CartBook.tsx:29-35 | after such a burst and a quiet spell, exactly the last request is reported, once, and only if it differs from `item.count`; earlier requests never are |
| CartBook.ReturnReportsNothing | Frontend/ordering_system/src/components/books/CartBook.tsx:32-34 | returning to the rendered count before the timer runs out reports nothing |
| CartBook.MinusPastOne | Frontend/ordering_system/src/components/books/CartBook.tsx:85-86 | with `item.count` 2, three quick minus clicks display −1 and report −1; the cart store then clamps the line to 1 |
| CartBook.SupersededRequest | Frontend/ordering_system/src/components/books/CartBook.tsx:28-41 | requests for 2, 3 and 5 at 0, 100 and 599 ms report only 5 |
| CartBook.RequestAtDueTime | Frontend/ordering_system/src/components/books/CartBook.tsx:28-41 | with the last request at 600 ms, the timer of the 100 ms request runs first: 3, then 5, are reported |
| CartBook.CartLineEditor.constructor | Frontend/ordering_system/src/components/books/CartBook.tsx:25-26 | a mounted line shows `item.count` and has no timer |
| CartBook.CartLineEditor.HandleUpdateProductCount | Frontend/ordering_system/src/components/books/CartBook.tsx:28-41 | clears the timer, schedules a new one 500 ms ahead and sets the displayed count, which is `Step` on a request |
| CartBook.CartLineEditor.ClickPlus | Frontend/ordering_system/src/components/books/CartBook.tsx:93-94 | is `Step` on plus |
| CartBook.CartLineEditor.ClickMinus | Frontend/ordering_system/src/components/books/CartBook.tsx:84-86 | is `Step` on minus, including the disabled case |
| CartBook.CartLineEditor.AdvanceClock | Frontend/ordering_system/src/components/books/CartBook.tsx:31-35 | runs the callback of a timer that falls due, which reports the count unless it equals the captured `item.count` |
| CartBook.CartLineEditor.Rerender | Frontend/ordering_system/src/components/books/CartBook.tsx:25 | a new `item.count` prop leaves the displayed count as it is |
| FormText.Check | Frontend/ordering_system/src/app/authentication/register/page.tsx:25-28 | a check records no issue exactly when it holds, and otherwise records its one message on its field |
| FormText.PatternNeedsUpperAndDigit | Frontend/ordering_system/src/app/authentication/register/page.tsx:44-47 | a password the regex accepts has an uppercase letter and a digit |
| FormText.PatternOnOneLine | Frontend/ordering_system/src/app/authentication/register/page.tsx:44-47 | on a single line, the regex accepts exactly the strings with some `A`–`Z` and some `0`–`9`, in either order |
| FormText.PatternStopsAtLineBreak | Frontend/ordering_system/src/app/authentication/register/page.tsx:45 | `"A\n1"` has both kinds of character and is still rejected |
| FormText.PasswordPattern | Frontend/ordering_system/src/app/authentication/register/page.tsx:45 | plain definition: the regex `(?=.*[A-Z])(?=.*[0-9])` searched from every position, `.` stopping at line terminators; `PatternNeedsUpperAndDigit`, `PatternOnOneLine` and `PatternStopsAtLineBreak` carry its properties |
| FormText.PhonePattern | Frontend/ordering_system/src/app/authentication/register/page.tsx:53-56 | plain definition: 10 to 15 characters, all `0`–`9`; `RegisterFieldRules` uses it |
| RegisterForm.RegisterIssues | Frontend/ordering_system/src/app/authentication/register/page.tsx:23-63 | plain definition: the issues of every field check in schema order, then the mismatch check; `RegisterAccepted`, `RegisterFieldMessages`, `RegisterFieldRules`, `RegisterPasswordRules` and `RegisterShown` carry its properties |
| RegisterForm.RegisterAccepted | Frontend/ordering_system/src/app/authentication/register/page.tsx:23-63 | the form passes exactly when name ≥ 2, email non-empty and well formed, username ≥ 6, password ≥ 6 and matching the regex, confirmation non-empty, phone 10–15 digits only, address non-empty, and the two passwords equal |
| RegisterForm.RegisterFieldMessages | Frontend/ordering_system/src/app/authentication/register/page.tsx:23-63 | the messages on a field come only from that field's own checks, plus the mismatch check for `rePassword` |
| RegisterForm.RegisterFieldRules | Frontend/ordering_system/src/app/authentication/register/page.tsx:25-58 | name, username, phone and address are each reported exactly when their own rule fails |
| RegisterForm.RegisterPasswordRules | Frontend/ordering_system/src/app/authentication/register/page.tsx:40-63 | password is reported exactly when short or failing the regex; `rePassword` exactly when empty or different; a mismatch is always reported on `rePassword` |
| RegisterForm.RegisterShown | Frontend/ordering_system/src/app/authentication/register/page.tsx:25-63 | the message shown first: "required" for an empty field, the length message for a 1-character name, and the mismatch for a filled-in confirmation that differs |
| RegisterForm.AfterSignup | Frontend/ordering_system/src/app/authentication/register/page.tsx:94-102 | navigates to `/auth/login` exactly when the reply message is `"success"`; otherwise alerts the message, "Something went wrong" when it is empty, or "Registration failed" when the call throws |
| LoginForm.LoginIssues | Frontend/ordering_system/src/app/authentication/login/page.tsx:22-32 | plain definition: the username issues, then the password issues; `LoginAccepted`, `LoginFieldRules` and `NoDigitRejected` carry its properties |
| LoginForm.LoginAccepted | Frontend/ordering_system/src/app/authentication/login/page.tsx:22-32 | the form passes exactly when the username is non-empty and the password has ≥ 6 characters and matches the regex |
| LoginForm.LoginFieldRules | Frontend/ordering_system/src/app/authentication/login/page.tsx:23-31 | each field is reported exactly when its rule fails; a short password shows the length message; a long one failing the regex gets only the regex message |
| LoginForm.NoDigitRejected | Frontend/ordering_system/src/app/authentication/login/page.tsx:28-31 | a password without a digit is always rejected |
| LoginForm.LastPage | Frontend/ordering_system/src/app/authentication/login/page.tsx:45-51 | the stored page when one is stored that is non-empty and not `/auth/login`; `/` otherwise |
| LoginForm.LastPageIsUsable | Frontend/ordering_system/src/app/authentication/login/page.tsx:49-50 | the chosen page is the stored one or `/`, and never empty and never `/auth/login` |
| LoginForm.SignInPageCanBeChosen | Frontend/ordering_system/src/app/authentication/login/page.tsx:50 | a stored `/authentication/login`, the sign-in page's own route, passes the comparison and is returned |
| AdminModels.AssignedShape | Backend/admins/models.py:79-103 | a column is in the SET clause exactly when its argument is not `None`; the clause is empty exactly when all are `None` |
| AdminModels.AppendIfGiven | Backend/admins/models.py:82-84 | one conditional block appends its fragment and parameter exactly when its argument is given |
| AdminModels.BuildAssignments | Backend/admins/models.py:79-105 | `updates` and `params` are one `"col = %s"` and one argument per given column, in column order, so they have equal length |
| AdminModels.AssignedEmpty | Backend/admins/models.py:107 | `updates` is empty exactly when no column is given |
| AdminModels.ArgumentsBindable | Backend/admins/models.py:107-110 | the collected parameters can all be sent exactly when every argument can |
| AdminModels.AssignedBindable | Backend/admins/models.py:107-110 | the UPDATE's parameters can all be sent exactly when every given column can |
| AdminModels.AssignmentsOneMarkerEach | Backend/admins/models.py:80-104 | each SET fragment holds exactly one `%s` |
| AdminModels.UpdateStatementMarkers | Backend/admins/models.py:107-110 | the UPDATE has as many `%s` as parameters, and the ISBN is the last parameter |
| AdminModels.ApplySetsAssigned | Backend/admins/models.py:107-110 | the UPDATE sets exactly the columns its SET clause names, to the values it passes, and keeps the rest |
| AdminModels.UpdateRow | Backend/admins/models.py:107-110 | plain definition: no statement (rowcount -1) without a given column, 0 for a missing book, otherwise the row applied with rowcount 1 exactly when it changed; `UpdateBookEffect` and `UpdateBookReturns` carry its properties |
| AdminModels.UpdateBookResult | Backend/admins/models.py:73-119 | plain definition: the statements `update_book` runs, over the tables; `UpdateBookEffect`, `UpdateBookReturns`, `TitleWithEmptyAuthors`, `UpdateBookNotIterable` and `WritesKeepConsistent` carry its properties |
| AdminModels.UpdateBookEffect | Backend/admins/models.py:73-119 | on an existing book: the row takes the given columns; the authors become exactly the given names in order, `[]` clears them, `None` leaves them; other books and tables are unchanged; a call that raises changes nothing |
| AdminModels.UpdateBookReturns | Backend/admins/models.py:118-119 | the result is true, with authors given, exactly for a non-empty list or when old authors were deleted; without authors, exactly when the UPDATE ran and changed the row |
| AdminModels.TitleWithEmptyAuthors | Backend/admins/models.py:112-119 | a new title with `authors=[]` on a book without authors is stored, yet false is returned |
| AdminModels.UpdateBookNotIterable | Backend/admins/models.py:112-116 | a number or boolean `authors` raises and leaves every table as it was, including the row the UPDATE had changed |
| AdminModels.ConfirmResult | Backend/admins/models.py:144-155 | plain definition: the guarded UPDATE of one order and its rowcount; `ConfirmRule` and `ConfirmTwice` carry its properties |
| AdminModels.ConfirmRule | Backend/admins/models.py:144-155 | true exactly for an existing pending order, which becomes confirmed; no other order or table changes; false changes nothing |
| AdminModels.ConfirmTwice | Backend/admins/models.py:148-155 | confirming the same order again returns false and changes nothing |
| AdminModels.DeleteBookResult | Backend/admins/models.py:121-127 | plain definition: the DELETE, its foreign-key error and its rowcount; `DeleteBookRule` and `DeleteBookTwice` carry its properties |
| AdminModels.DeleteBookRule | Backend/admins/models.py:121-127 | true exactly when the book existed and no order refers to it, and it is then gone; an order referring to it raises `IntegrityError`; otherwise nothing changes; other books are kept |
| AdminModels.DeleteBookTwice | Backend/admins/models.py:121-127 | deleting again returns false |
| AdminModels.CreateBookResult | Backend/admins/models.py:49-71 | plain definition: the book INSERT, then the author INSERTs, then the commit, or the rollback; `CreateBookAllOrNothing` and `WritesKeepConsistent` carry its properties |
| AdminModels.CreateBookAllOrNothing | Backend/admins/models.py:49-71 | either the book and one author row per name in order are there afterwards, or the tables are as they were; a known ISBN raises `IntegrityError`; a book INSERT error on a new ISBN is raised before any author is looked at |
| AdminModels.WritesKeepConsistent | Backend/admins/models.py:49-155 | no write leaves an author row or an order reference without its book |
| AdminModels.Catalog.Rollback | Backend/admins/models.py:69-71 | the tables return to their state at the start of the call |
| AdminModels.Catalog.ExecuteUpdate | Backend/admins/models.py:79-110 | raises before any change on an unsendable argument; otherwise the row and `rowcount` are `UpdateRow`'s |
| AdminModels.Catalog.ReplaceAuthorRows | Backend/admins/models.py:112-116 | the DELETE-then-INSERT loop leaves exactly the given names, or returns the first error: a missing book or an unsendable name |
| AdminModels.Catalog.UpdateBook | Backend/admins/models.py:73-119 | the new tables and the result are `UpdateBookResult` of the old tables |
| AdminModels.Catalog.ConfirmPublisherOrder | Backend/admins/models.py:144-155 | the new tables and the result are `ConfirmResult` of the old tables |
| AdminModels.Catalog.DeleteBook | Backend/admins/models.py:121-127 | the new tables and the result are `DeleteBookResult` of the old tables |
| AdminModels.Catalog.CreateBook | Backend/admins/models.py:49-71 | the new tables and the result are `CreateBookResult` of the old tables, with the book inserted first and the authors one row at a time after it |
| AdminRoutes.FirstMissing | Backend/admins/routes.py:46-48 | every field before the position found is present, and the one at it, if any, is absent |
| AdminRoutes.AddBookMissingField | Backend/admins/routes.py:43-48 | a body lacking a required field gets 400 naming the first missing one in the listed order, and nothing is written |
| AdminRoutes.AddBookAuthors | Backend/admins/routes.py:57-62 | a missing `authors` creates the book with no authors; a given non-list `authors`, `null` included, gets 400 with nothing written |
| AdminRoutes.AddBookCreates | Backend/admins/routes.py:50-66 | a body passing the checks is handed to `create_book` with its members, `publisher_id` `None` when absent |
| AdminRoutes.CreateReply | Backend/admins/routes.py:64-71 | success gives 201, an `IntegrityError` 409, and any other error 400 with its text |
| AdminRoutes.AddBook | Backend/admins/routes.py:39-71 | plain definition: the field checks, the authors check, `create_book` and the reply; `AddBookMissingField`, `AddBookAuthors`, `AddBookCreates`, `AddBookOutcome` and `AddBookConflictIsAnyIntegrityError` carry its properties |
| AdminRoutes.AddBookOutcome | Backend/admins/routes.py:64-71 | 201 exactly for a new ISBN with sendable values and no engine error, and the book is then stored; a known ISBN gives 409; a refusal writes nothing |
| AdminRoutes.AddBookConflictIsAnyIntegrityError | Backend/admins/routes.py:68-69 | a foreign-key `IntegrityError` from the book INSERT on a new ISBN is also answered "Book with this ISBN already exists", whatever the authors |
| AdminRoutes.UpdateReply | Backend/admins/routes.py:99-104 | 200 exactly for a true result; false gives 400 "No changes made"; an error gives 400 with its text |
| AdminRoutes.UpdateBookDetails | Backend/admins/routes.py:76-104 | plain definition: the lookup, `update_book` with the body's members, and the reply; `UpdateBookDetailsStatus` and `UpdateBookDetailsRepeated` carry its properties |
| AdminRoutes.UpdateBookDetailsStatus | Backend/admins/routes.py:76-104 | an unknown ISBN gets 404 and nothing is written; a known one gets 200 exactly when `update_book` returns true, and 400 otherwise |
| AdminRoutes.ApplyTwice | Backend/admins/models.py:107-110 | applying the same changes twice gives the same row as once |
| AdminRoutes.UpdateBookDetailsRepeated | Backend/admins/routes.py:95-102 | sending the same changes again without `authors` is answered 400 "No changes made" |
| AdminRoutes.RemoveReply | Backend/admins/routes.py:115-124 | 200 exactly for a true result; `IntegrityError` gives 400 "referenced in orders"; other errors give 400 with their text |
| AdminRoutes.RemoveBook | Backend/admins/routes.py:109-124 | plain definition: the lookup, `delete_book` and the reply; `RemoveBookStatus` carries its properties |
| AdminRoutes.RemoveBookStatus | Backend/admins/routes.py:109-124 | 404 exactly for an unknown ISBN; 200 exactly for a known one no order refers to, which is then gone; otherwise nothing changes; "Failed to delete book" is never the answer |
| AdminRoutes.ConfirmOrder | Backend/admins/routes.py:141-147 | plain definition: `confirm_publisher_order` and the 200 or 404 answer; `ConfirmOrderStatus` carries its properties |
| AdminRoutes.ConfirmOrderStatus | Backend/admins/routes.py:141-147 | 200 exactly for a pending order; otherwise 404 and no change; a second confirmation gets 404 |
| AdminRoutes.SalesByDate | Backend/admins/routes.py:184-190 | a missing or empty `date` gets 400 without calling the model; otherwise the model is called with that date |
| AdminRoutes.ReportAnswer | Backend/admins/routes.py:190-191 | plain definition, no contract: the report row with 200; `ReplenishmentHistory` states what it answers |
| AdminRoutes.ReplenishmentHistory | Backend/admins/routes.py:212-217 | 404 exactly when the query returned no row; otherwise 200 with the row |
| AdminRoutes.OrdersFor | Backend/admins/models.py:219-222 | the count is at most the number of order rows, and 0 exactly when no row carries the ISBN |
| AdminRoutes.ReplenishmentQuery | Backend/admins/models.py:215-224 | plain definition, no contract: the one row an aggregate without `GROUP BY` yields, holding `OrdersFor`; this one-row semantics is assumed of SQL here, not derived |
| AdminRoutes.ReplenishmentNeverNotFound | Backend/admins/models.py:215-224 | whatever the order rows, the report route answers what `ReplenishmentQuery` returns with 200, with a count of 0 for an ISBN without orders; it rests on the one-row semantics `ReplenishmentQuery` assumes |
| BookRoutes.OrderBooks | Backend/books/routes.py:36-41 | a refusal is 400 "Missing Arguments"; an order is placed with the user, the card and the list of books given |
| BookRoutes.OrderGuard | Backend/books/routes.py:40-41 | an order is placed exactly when `books` is a non-empty list and the card is truthy; missing, empty or non-list `books` and a missing or empty card are refused |
| BookRoutes.CardTruthiness | Backend/books/routes.py:40 | the card number `0` is refused while `"0"` is accepted |
| BookRoutes.OrderReply | Backend/books/routes.py:43-48 | 201 with the returned `order_id` exactly on success; 400 "Invalid Input" for `IntegrityError`; other errors are not caught (500) |
| BookRoutes.OrderStatus | Backend/books/routes.py:40-48 | 201 exactly when the guard passes and the order is created; 400 exactly for a refusal or an `IntegrityError` |
| BookRoutes.Arg | Backend/books/routes.py:20-24 | plain definition, no contract: `request.args.get(name)`; `SearchArguments` states what each argument holds |
| BookRoutes.SearchArguments | Backend/books/routes.py:19-26 | `book_search` receives isbn, title, category, author, publisher in that order; each is present exactly when the query string has that name, and then holds its value |
| BookRoutes.SearchByTitleOnly | Backend/books/routes.py:20-26 | a search by title alone sends `None` first and the title second |
| BookModels.Filters | Backend/books/models.py:10-24 | plain definition: the search, category, minimum and maximum price conditions whose argument is truthy, in that order; `FilterPresence` and `FiltersOneMarkerEach` carry its properties |
| BookModels.BooksQuery | Backend/books/models.py:7-27 | plain definition: the base SELECT, the conditions, then `LIMIT %s OFFSET %s`; `QueryStartsWithBase`, `QueryEndsWithPage`, `QueryMarkersMatchParams` and `BooksQueryShape` carry its properties |
| BookModels.FilterPresence | Backend/books/models.py:10-24 | each condition is present exactly when its argument is truthy (a price of 0 adds nothing); the search condition comes first with `"%" + search + "%"` |
| BookModels.ClausesPlaceholders | Backend/books/models.py:14-24 | the conditions contribute one `%s` each |
| BookModels.QueryMarkersMatchParams | Backend/books/models.py:7-27 | the statement has as many `%s` as parameters |
| BookModels.QueryStartsWithBase | Backend/books/models.py:7 | the statement starts with `SELECT * FROM books WHERE 1=1` |
| BookModels.QueryEndsWithPage | Backend/books/models.py:26 | the statement ends with `LIMIT %s OFFSET %s` |
| BookModels.BooksQueryShape | Backend/books/models.py:7-27 | start, end, last two parameters `limit, offset`, and markers equal to parameters |
| BookModels.AddFilterIf | Backend/books/models.py:10-24 | one `if` block appends its condition and parameter exactly when its argument is truthy |
| BookModels.BuildBooksQuery | Backend/books/models.py:3-27 | the statement and parameters built step by step are those of the truthy filters in order, then the page window, with one `%s` per parameter |

## Left out

- Email format: the schema's `.email()` check uses zod's own pattern, which is not part of this model. Its outcome is the parameter `emailFormat`.
- String lengths are counted in Dafny characters, not UTF-16 code units as JavaScript counts them.
- `CartStore` mutators require a window. On the server-rendering path the source throws when it reaches `localStorage`, and that path is not modelled.
- JSON encoding of the cart and local-storage mechanics are not modelled. The slot holds the decoded lines, because encoding and then decoding gives back the same lines.
- `CartBook` reads `item.count` as a number. The interface behind it (`@/interfaces/cart`) is not part of this model, and the cart container that renders the line is not either.
- Real timers, React rendering and the JSX are not modelled. Time is a virtual clock.
- The aggregate report queries (`get_sales_*`, `get_top_*`) run in the SQL engine. Their results are parameters of the report routes.
- MySQL itself is reduced to an in-memory table, and these schema assumptions stand in for the schema file, which is not part of this model:
  - author rows are deleted with their book;
  - order rows referring to a book make its deletion raise `IntegrityError`;
  - `status` is `Pending` or `Confirmed`;
  - keys compare as JSON values, with no SQL type conversion;
  - no trigger runs on any table. The database evidently creates publisher replenishment orders itself, since no application code inserts them.
- UpdateBookEffect, ConfirmRule and WritesKeepConsistent: "`publisherOrders` unchanged after `update_book`" and "books unchanged after a confirmation" hold only under the no-trigger assumption above. A trigger that places or fulfils replenishment orders when `quantity_stock` or an order status changes is not modelled.
- UpdateRow and UpdateBookReturns: column values are stored and compared exactly as sent. MySQL converts a value to the column type before counting changed rows, so writing `"5"` to an INT column holding 5 changes nothing there, while the model counts it as a change; the 400 "No changes made" answer in such cases is not captured.
- CreateBookResult: column type errors and foreign-key errors of the book INSERT that depend on data outside the model are the `engine` parameter. The author INSERTs raise only for a name the driver cannot send; column-size errors of the author table are not modelled.
- UpdateBookResult: does not model engine-level errors of the UPDATE, because they depend on column types outside the model.
- JSON objects with a repeated member name are read as Python reads them: the last value counts. A request body that is not an object is not modelled; the source fails on it with an uncaught error.
- Author names repeated within one request are inserted as given. No uniqueness of author rows is assumed.
- `book_search`, `get_books_page` and `create_customer_order` are imported by Backend/books/routes.py but are not defined in Backend/books/models.py. Their results are parameters, and only the guard, the status mapping and the argument order are modelled.
- JWT checks, admin decorators, CORS, `get_db` and the Flask app are framework code and are not modelled.
- The sign-in call (`signIn`), the API client, the middleware, the cart context and the UI components are network or UI code and are not modelled.
- One-off scripts and the user routes and models are not modelled.
- Floating-point prices are not modelled; prices are whole cents.
- LastPageIsUsable: does not promise that the chosen page is never the sign-in page, because the source compares with `/auth/login` only and the sign-in page at `/authentication/login` can be chosen (`SignInPageCanBeChosen`).
- The aggregate replenishment query is modelled by `ReplenishmentQuery` over the `ISBN_number` of each order row. That it returns exactly one row is how SQL treats an aggregate without `GROUP BY`; it is assumed, not derived.
