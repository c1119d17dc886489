/** The admin endpoints of Backend/admins/routes.py that decide something
    before or after calling the model: which request is refused, which
    model result becomes which status code and message.

    A request body is the list of members of the JSON object the client
    sent; a path parameter is a string. Each endpoint is a function from
    the tables (and the request) to the tables afterwards and the response. */
module AdminRoutes {
  import opened Wrappers
  import opened Py
  import opened AdminModels

  /** The fields `add_book` insists on, in the order it checks them. */
  const RequiredFields: seq<string> :=
    ["ISBN_number", "title", "publication_year", "quantity_stock",
     "category", "threshold", "selling_price", "book_image"]

  /** The position of the first of `fields` that `data` lacks, or
      `|fields|` when it has them all. */
  function FirstMissing(data: seq<(string, Value)>, fields: seq<string>): (k: nat)
    ensures k <= |fields|
    ensures forall j :: 0 <= j < k ==> HasKey(data, fields[j])
    ensures k < |fields| ==> !HasKey(data, fields[k])
    decreases |fields|
  {
    if fields == [] then 0
    else if !HasKey(data, fields[0]) then 0
    else
      var k := FirstMissing(data, fields[1..]);
      assert forall j :: 1 <= j < k + 1 ==> fields[j] == fields[1..][j - 1];
      k + 1
  }

  /** The book row `add_book` passes to `create_book`: each column's member,
      and `publisher_id` only if it is there. */
  function NewRow(data: seq<(string, Value)>): BookRow {
    BookRow(Get(data, "title"), Get(data, "publication_year"), Get(data, "quantity_stock"),
            Get(data, "category"), Get(data, "threshold"), Get(data, "selling_price"),
            Get(data, "publisher_id"), Get(data, "book_image"))
  }

  /** How `add_book` answers what `create_book` returned or raised. */
  function CreateReply(r: Call<bool>): (resp: Response)
    ensures r.Returned? ==> resp == Response(HTTP_201_CREATED, Msg("Book created successfully"))
    ensures r.Raised? && r.error.IntegrityError? ==>
              resp == Response(HTTP_409_CONFLICT, Msg("Book with this ISBN already exists"))
    ensures r.Raised? && !r.error.IntegrityError? ==>
              resp == Response(HTTP_400_BAD_REQUEST, Msg("Error creating book: " + r.error.reason))
  {
    match r
    case Returned(_) => Response(HTTP_201_CREATED, Msg("Book created successfully"))
    case Raised(IntegrityError(_)) => Response(HTTP_409_CONFLICT, Msg("Book with this ISBN already exists"))
    case Raised(e) => Response(HTTP_400_BAD_REQUEST, Msg("Error creating book: " + e.reason))
  }

  /** `POST /books`. `engine` is an error the database raises for its own
      reasons, as in `CreateBookResult`. */
  function AddBook(t: Tables, data: seq<(string, Value)>, engine: Option<Exception>): (Tables, Response) {
    var k := FirstMissing(data, RequiredFields);
    if k < |RequiredFields| then
      (t, Response(HTTP_400_BAD_REQUEST, Msg("Missing required field: " + RequiredFields[k])))
    else
      var authors := GetOr(data, "authors", List([]));
      if !IsList(authors) then (t, Response(HTTP_400_BAD_REQUEST, Msg("Authors must be a list")))
      else
        var (t', r) := CreateBookResult(t, Get(data, "ISBN_number"), NewRow(data), authors.items, engine);
        (t', CreateReply(r))
  }

  /** A body that lacks a required field is refused with 400, naming the
      first one missing in the listed order, and nothing is written. */
  lemma AddBookMissingField(t: Tables, data: seq<(string, Value)>, engine: Option<Exception>, k: nat)
    requires k < |RequiredFields| && !HasKey(data, RequiredFields[k])
    requires forall j :: 0 <= j < k ==> HasKey(data, RequiredFields[j])
    ensures AddBook(t, data, engine) == (t, Response(HTTP_400_BAD_REQUEST, Msg("Missing required field: " + RequiredFields[k])))
  {
  }

  /** With every required field present: `authors` may be left out, in
      which case the book is created with no authors; an `authors` that is
      given but is not a list (`null` included) is refused with 400 before
      anything is written. */
  lemma AddBookAuthors(t: Tables, data: seq<(string, Value)>, engine: Option<Exception>)
    requires forall j :: 0 <= j < |RequiredFields| ==> HasKey(data, RequiredFields[j])
    ensures HasKey(data, "authors") && !IsList(Get(data, "authors")) ==>
              AddBook(t, data, engine) == (t, Response(HTTP_400_BAD_REQUEST, Msg("Authors must be a list")))
    ensures !HasKey(data, "authors") ==>
              AddBook(t, data, engine)
              == var (t', r) := CreateBookResult(t, Get(data, "ISBN_number"), NewRow(data), [], engine);
                 (t', CreateReply(r))
  {
    assert FirstMissing(data, RequiredFields) == |RequiredFields|;
  }

  /** A body that passes the checks is handed to `create_book`. */
  lemma AddBookCreates(t: Tables, data: seq<(string, Value)>, engine: Option<Exception>)
    requires forall j :: 0 <= j < |RequiredFields| ==> HasKey(data, RequiredFields[j])
    requires IsList(GetOr(data, "authors", List([])))
    ensures var r := CreateBookResult(t, Get(data, "ISBN_number"), NewRow(data), GetOr(data, "authors", List([])).items, engine);
            AddBook(t, data, engine) == (r.0, CreateReply(r.1))
  {
    assert FirstMissing(data, RequiredFields) == |RequiredFields|;
  }

  /** A body that passes the checks is created with 201, or gets 409 for
      an ISBN already in the catalogue, or 400 for a value the driver
      refuses; a refused request writes nothing. */
  lemma AddBookOutcome(t: Tables, data: seq<(string, Value)>, engine: Option<Exception>)
    requires Consistent(t)
    requires forall j :: 0 <= j < |RequiredFields| ==> HasKey(data, RequiredFields[j])
    requires IsList(GetOr(data, "authors", List([])))
    ensures var (t', resp) := AddBook(t, data, engine);
            var isbn := Get(data, "ISBN_number");
            var authors := GetOr(data, "authors", List([])).items;
            && (resp.status == HTTP_201_CREATED <==>
                  isbn !in t.books && AllBindable([isbn] + RowFields(NewRow(data)))
                  && AllBindable(authors) && engine.None?)
            && (resp.status == HTTP_201_CREATED ==>
                  t'.books == t.books[isbn := NewRow(data)] && AuthorsOf(t', isbn) == authors)
            && (resp.status != HTTP_201_CREATED ==> t' == t)
            && (isbn in t.books && AllBindable([isbn] + RowFields(NewRow(data))) ==>
                  resp == Response(HTTP_409_CONFLICT, Msg("Book with this ISBN already exists")))
            && (!AllBindable([isbn] + RowFields(NewRow(data))) ==>
                  resp == Response(HTTP_400_BAD_REQUEST, Msg("Error creating book: " + NotBindable.reason)))
  {
    var isbn := Get(data, "ISBN_number");
    var authors := GetOr(data, "authors", List([])).items;
    AddBookCreates(t, data, engine);
    CreateBookAllOrNothing(t, isbn, NewRow(data), authors, engine);
  }

  /** The 409 answer is not specific to duplicates: any `IntegrityError`
      from the book insert, such as a `publisher_id` naming no publisher,
      is reported as an ISBN that already exists, whatever the authors. */
  lemma AddBookConflictIsAnyIntegrityError(t: Tables, data: seq<(string, Value)>, reason: string)
    requires forall j :: 0 <= j < |RequiredFields| ==> HasKey(data, RequiredFields[j])
    requires IsList(GetOr(data, "authors", List([])))
    requires AllBindable([Get(data, "ISBN_number")] + RowFields(NewRow(data)))
    requires Get(data, "ISBN_number") !in t.books
    ensures AddBook(t, data, Some(IntegrityError(reason)))
            == (t, Response(HTTP_409_CONFLICT, Msg("Book with this ISBN already exists")))
  {
    AddBookCreates(t, data, Some(IntegrityError(reason)));
  }

  /** `get_book_by_isbn(isbn)` finds a row, which is never empty. */
  predicate Found(t: Tables, isbn: string) {
    Str(isbn) in t.books
  }

  /** The changes `update_book_details` passes: each member, `None` when absent. */
  function RequestedChanges(data: seq<(string, Value)>): BookChanges {
    BookChanges(Get(data, "title"), Get(data, "publication_year"), Get(data, "quantity_stock"),
                Get(data, "category"), Get(data, "threshold"), Get(data, "selling_price"),
                Get(data, "publisher_id"), Get(data, "book_image"))
  }

  function UpdateReply(r: Call<bool>): (resp: Response)
    ensures resp.status == HTTP_200_OK <==> r == Returned(true)
    ensures r == Returned(true) ==> resp.body == Msg("Book updated successfully")
    ensures r == Returned(false) ==> resp == Response(HTTP_400_BAD_REQUEST, Msg("No changes made"))
    ensures r.Raised? ==> resp == Response(HTTP_400_BAD_REQUEST, Msg("Error updating book: " + r.error.reason))
  {
    match r
    case Returned(true) => Response(HTTP_200_OK, Msg("Book updated successfully"))
    case Returned(false) => Response(HTTP_400_BAD_REQUEST, Msg("No changes made"))
    case Raised(e) => Response(HTTP_400_BAD_REQUEST, Msg("Error updating book: " + e.reason))
  }

  /** `PUT /books/<isbn>`. */
  function UpdateBookDetails(t: Tables, isbn: string, data: seq<(string, Value)>): (Tables, Response) {
    if !Found(t, isbn) then (t, Response(HTTP_404_NOT_FOUND, Msg("Book not found")))
    else
      var (t', r) := UpdateBookResult(t, isbn, RequestedChanges(data), Get(data, "authors"));
      (t', UpdateReply(r))
  }

  /** An unknown ISBN gets 404 and nothing is written; a known one gets
      200 exactly when `update_book` reports a change, and otherwise 400. */
  lemma UpdateBookDetailsStatus(t: Tables, isbn: string, data: seq<(string, Value)>)
    ensures var (t', resp) := UpdateBookDetails(t, isbn, data);
            && (resp.status == HTTP_404_NOT_FOUND <==> !Found(t, isbn))
            && (!Found(t, isbn) ==> t' == t && resp.body == Msg("Book not found"))
            && (Found(t, isbn) ==>
                  var r := UpdateBookResult(t, isbn, RequestedChanges(data), Get(data, "authors")).1;
                  && (resp.status == HTTP_200_OK <==> r == Returned(true))
                  && (resp.status != HTTP_200_OK ==> resp.status == HTTP_400_BAD_REQUEST))
  {
  }

  /** `Apply` is idempotent: a row already holding the given values is left as it is. */
  lemma ApplyTwice(row: BookRow, c: BookChanges)
    ensures Apply(Apply(row, c), c) == Apply(row, c)
  {
  }

  /** Sending the same change a second time, without `authors`, finds the
      row already changed and is answered 400 "No changes made". */
  lemma UpdateBookDetailsRepeated(t: Tables, isbn: string, data: seq<(string, Value)>)
    requires Found(t, isbn) && Get(data, "authors") == Null && GivenBindable(RequestedChanges(data))
    ensures var t' := UpdateBookDetails(t, isbn, data).0;
            UpdateBookDetails(t', isbn, data) == (t', Response(HTTP_400_BAD_REQUEST, Msg("No changes made")))
  {
    var c := RequestedChanges(data);
    var key := Str(isbn);
    ApplyTwice(t.books[key], c);
    var t' := UpdateRow(t, key, c).0;
    assert UpdateBookDetails(t, isbn, data).0 == t';
    assert key in t'.books;
    assert UpdateRow(t', key, c).1 <= 0;
    assert UpdateBookResult(t', isbn, c, Null).1 == Returned(false);
    assert t'.books[key := Apply(t'.books[key], c)] == t'.books;
    assert UpdateBookResult(t', isbn, c, Null).0 == t';
  }

  function RemoveReply(r: Call<bool>): (resp: Response)
    ensures resp.status == HTTP_200_OK <==> r == Returned(true)
    ensures r == Returned(false) ==> resp == Response(HTTP_400_BAD_REQUEST, Msg("Failed to delete book"))
    ensures r.Raised? && r.error.IntegrityError? ==>
              resp == Response(HTTP_400_BAD_REQUEST, Msg("Cannot delete book: it is referenced in orders"))
    ensures r.Raised? && !r.error.IntegrityError? ==>
              resp == Response(HTTP_400_BAD_REQUEST, Msg("Error deleting book: " + r.error.reason))
  {
    match r
    case Returned(true) => Response(HTTP_200_OK, Msg("Book deleted successfully"))
    case Returned(false) => Response(HTTP_400_BAD_REQUEST, Msg("Failed to delete book"))
    case Raised(IntegrityError(_)) => Response(HTTP_400_BAD_REQUEST, Msg("Cannot delete book: it is referenced in orders"))
    case Raised(e) => Response(HTTP_400_BAD_REQUEST, Msg("Error deleting book: " + e.reason))
  }

  /** `DELETE /books/<isbn>`. */
  function RemoveBook(t: Tables, isbn: string): (Tables, Response) {
    if !Found(t, isbn) then (t, Response(HTTP_404_NOT_FOUND, Msg("Book not found")))
    else
      var (t', r) := DeleteBookResult(t, isbn);
      (t', RemoveReply(r))
  }

  /** Unknown ISBN: 404 and nothing deleted. Known ISBN: 200 and the book
      is gone, unless order rows refer to it, which gives 400 and keeps it.
      Because the book was just found, "Failed to delete book" is never
      the answer. */
  lemma RemoveBookStatus(t: Tables, isbn: string)
    ensures var (t', resp) := RemoveBook(t, isbn);
            && (resp.status == HTTP_404_NOT_FOUND <==> !Found(t, isbn))
            && (resp.status != HTTP_200_OK ==> t' == t)
            && (resp.status == HTTP_200_OK <==> Found(t, isbn) && Str(isbn) !in t.ordered)
            && (resp.status == HTTP_200_OK ==> Str(isbn) !in t'.books)
            && (Found(t, isbn) && Str(isbn) in t.ordered ==>
                  resp == Response(HTTP_400_BAD_REQUEST, Msg("Cannot delete book: it is referenced in orders")))
            && resp.body != Msg("Failed to delete book")
  {
  }

  /** `PUT /publisher-orders/<order_id>/confirm`. */
  function ConfirmOrder(t: Tables, orderId: int): (Tables, Response) {
    var (t', changed) := ConfirmResult(t, orderId);
    if changed then (t', Response(HTTP_200_OK, Msg("Publisher order confirmed successfully")))
    else (t', Response(HTTP_404_NOT_FOUND, Msg("Order not found or already confirmed")))
  }

  /** 200 exactly for a pending order, which is then confirmed; 404 for an
      unknown or already confirmed one, which changes nothing; so a second
      confirmation of the same order gets 404. */
  lemma ConfirmOrderStatus(t: Tables, orderId: int)
    ensures var (t', resp) := ConfirmOrder(t, orderId);
            && (resp.status == HTTP_200_OK <==>
                  orderId in t.publisherOrders && t.publisherOrders[orderId] == Pending)
            && (resp.status != HTTP_200_OK ==> resp.status == HTTP_404_NOT_FOUND && t' == t)
            && ConfirmOrder(t', orderId).1.status == HTTP_404_NOT_FOUND
  {
    ConfirmRule(t, orderId);
    ConfirmTwice(t, orderId);
  }

  /** What a report endpoint does with its request: answer at once, or
      call the model with an argument and answer with its result. */
  datatype Handling = Answer(response: Response) | CallModel(argument: string)

  /** `GET /reports/sales/by-date`, up to the model call: `date` is the
      query argument, absent or not. */
  function SalesByDate(date: Option<string>): (h: Handling)
    ensures h.Answer? <==> date.None? || date.value == ""
    ensures h.Answer? ==> h.response == Response(HTTP_400_BAD_REQUEST, Msg("Missing date parameter"))
    ensures h.CallModel? ==> h.argument == date.value
  {
    if date.None? || date.value == "" then Answer(Response(HTTP_400_BAD_REQUEST, Msg("Missing date parameter")))
    else CallModel(date.value)
  }

  /** The report's answer once the model returned its row. */
  function ReportAnswer(result: Value): Response {
    Response(HTTP_200_OK, result)
  }

  /** `GET /reports/replenishment-history/<isbn>` after the model call:
      `None` when the query returned no row. */
  function ReplenishmentHistory(result: Option<Value>): (resp: Response)
    ensures resp.status == HTTP_404_NOT_FOUND <==> result.None?
    ensures result.None? ==> resp.body == Msg("Book not found")
    ensures result.Some? ==> resp.status == HTTP_200_OK && resp.body == result.value
  {
    if result.None? then Response(HTTP_404_NOT_FOUND, Msg("Book not found")) else ReportAnswer(result.value)
  }

  /** The number of `publisher_order` rows for `isbn`; `orders` holds the
      `ISBN_number` of each row, whose `order_id` is never `NULL`. */
  function OrdersFor(orders: seq<Value>, isbn: Value): (n: nat)
    ensures n <= |orders|
    ensures n == 0 <==> forall i :: 0 <= i < |orders| ==> orders[i] != isbn
    decreases |orders|
  {
    if orders == [] then 0
    else OrdersFor(orders[..|orders| - 1], isbn) + (if orders[|orders| - 1] == isbn then 1 else 0)
  }

  /** `get_replenishment_history(isbn)`: an aggregate without `GROUP BY`
      yields exactly one row, which `fetchone` returns. */
  function ReplenishmentQuery(orders: seq<Value>, isbn: Value): Option<Value> {
    Some(Dict([("number_of_replenishments", Int(OrdersFor(orders, isbn)))]))
  }

  /** The replenishment query always returns its count row, so the 404
      answer is never given: an ISBN with no publisher orders, catalogued
      or not, is answered 200 with a count of 0. */
  lemma ReplenishmentNeverNotFound(orders: seq<Value>, isbn: Value)
    ensures ReplenishmentHistory(ReplenishmentQuery(orders, isbn)).status == HTTP_200_OK
    ensures (forall i :: 0 <= i < |orders| ==> orders[i] != isbn) ==>
              ReplenishmentHistory(ReplenishmentQuery(orders, isbn)).body
              == Dict([("number_of_replenishments", Int(0))])
  {
  }
}
