/** The customer endpoints of Backend/books/routes.py that decide
    something themselves: the argument guard and status mapping of
    `order_books`, and the order in which the search route passes its
    query arguments on. The model functions these routes call
    (`create_customer_order`, `book_search`) are not part of this model:
    their results are parameters. */
module BookRoutes {
  import opened Wrappers
  import opened Py

  /** What `order_books` does with a request: answer it at once, or call
      `create_customer_order(username, credit_card, books)`. */
  datatype OrderHandling =
    | Refuse(response: Response)
    | PlaceOrder(username: string, creditCard: Value, books: seq<Value>)

  /** `order_books` up to the model call: `data` is the JSON object sent. */
  function OrderBooks(username: string, data: seq<(string, Value)>): (h: OrderHandling)
    ensures h.PlaceOrder? ==> h.username == username && h.creditCard == Get(data, "credit_card_number")
    ensures h.PlaceOrder? ==> List(h.books) == Get(data, "books")
    ensures h.Refuse? ==> h.response == Response(HTTP_400_BAD_REQUEST, Msg("Missing Arguments"))
  {
    var books := Get(data, "books");
    var creditCard := Get(data, "credit_card_number");
    if !Truthy(books) || !IsList(books) || !Truthy(creditCard) then
      Refuse(Response(HTTP_400_BAD_REQUEST, Msg("Missing Arguments")))
    else PlaceOrder(username, creditCard, books.items)
  }

  /** The order is placed exactly when `books` is a non-empty list and
      `credit_card_number` is truthy: a missing or `null` member, an empty
      list, a value that is not a list, and an empty or zero card number
      are all refused with 400 before anything is created. */
  lemma OrderGuard(username: string, data: seq<(string, Value)>)
    ensures var h := OrderBooks(username, data);
            && (h.PlaceOrder? <==>
                  Get(data, "books").List? && |Get(data, "books").items| > 0
                  && Truthy(Get(data, "credit_card_number")))
            && (!HasKey(data, "books") ==> h.Refuse?)
            && (Get(data, "books") == List([]) ==> h.Refuse?)
            && (!Get(data, "books").List? ==> h.Refuse?)
            && (!HasKey(data, "credit_card_number") || Get(data, "credit_card_number") == Str("") ==> h.Refuse?)
  {
  }

  /** Truthiness, not type, decides the card check: the number `0` is
      refused while the string `"0"` is accepted. */
  lemma CardTruthiness(username: string, books: seq<Value>)
    requires |books| > 0
    ensures OrderBooks(username, [("books", List(books)), ("credit_card_number", Int(0))]).Refuse?
    ensures OrderBooks(username, [("books", List(books)), ("credit_card_number", Str("0"))]).PlaceOrder?
  {
    var d0 := [("books", List(books)), ("credit_card_number", Int(0))];
    var d1 := [("books", List(books)), ("credit_card_number", Str("0"))];
    assert Get(d0, "credit_card_number") == Int(0);
    assert Get(d0[..1], "books") == List(books);
    assert Get(d1, "credit_card_number") == Str("0");
    assert Get(d1[..1], "books") == List(books);
  }

  /** What Flask sends when a view raises an exception it does not catch:
      a 500 page, not a JSON body. */
  const Uncaught := Response(HTTP_500_INTERNAL, Null)

  /** `order_books` after the model call: the new order's id, an
      `IntegrityError`, or another exception, which the route lets through. */
  function OrderReply(r: Call<Value>): (resp: Response)
    ensures resp.status == 201 <==> r.Returned?
    ensures r.Returned? ==>
              resp.body == Dict([("msg", Str("Order placed successfully")), ("order_id", r.value)])
              && Get(resp.body.entries, "order_id") == r.value
    ensures r.Raised? && r.error.IntegrityError? ==> resp == Response(HTTP_400_BAD_REQUEST, Msg("Invalid Input"))
    ensures r.Raised? && !r.error.IntegrityError? ==> resp == Uncaught
  {
    match r
    case Returned(orderId) => Response(201, Dict([("msg", Str("Order placed successfully")), ("order_id", orderId)]))
    case Raised(IntegrityError(_)) => Response(HTTP_400_BAD_REQUEST, Msg("Invalid Input"))
    case Raised(_) => Uncaught
  }

  /** A request refused by the guard and one the model refuses both get 400,
      and only an order that was created gets 201. */
  lemma OrderStatus(username: string, data: seq<(string, Value)>, r: Call<Value>)
    ensures var h := OrderBooks(username, data);
            var resp := if h.Refuse? then h.response else OrderReply(r);
            && (resp.status == 201 <==> h.PlaceOrder? && r.Returned?)
            && (resp.status == HTTP_400_BAD_REQUEST <==> h.Refuse? || (r.Raised? && r.error.IntegrityError?))
  {
  }

  /** `request.args.get(name)`: the query argument, or `None`. */
  function Arg(args: map<string, string>, name: string): Option<string> {
    if name in args then Some(args[name]) else None
  }

  /** The arguments `search_for_books` passes to `book_search`, in order. */
  datatype SearchCall = SearchCall(
    isbn: Option<string>,
    title: Option<string>,
    category: Option<string>,
    author: Option<string>,
    publisher: Option<string>)

  /** The positional arguments of the `book_search` call, read from the
      query string under their own names. */
  function SearchArguments(args: map<string, string>): (call: SearchCall)
    ensures call.isbn.Some? <==> "isbn" in args
    ensures call.isbn.Some? ==> call.isbn.value == args["isbn"]
    ensures call.title.Some? <==> "title" in args
    ensures call.title.Some? ==> call.title.value == args["title"]
    ensures call.category.Some? <==> "category" in args
    ensures call.category.Some? ==> call.category.value == args["category"]
    ensures call.author.Some? <==> "author" in args
    ensures call.author.Some? ==> call.author.value == args["author"]
    ensures call.publisher.Some? <==> "publisher" in args
    ensures call.publisher.Some? ==> call.publisher.value == args["publisher"]
  {
    SearchCall(Arg(args, "isbn"), Arg(args, "title"), Arg(args, "category"),
               Arg(args, "author"), Arg(args, "publisher"))
  }

  /** The ISBN goes first and the title second, although the route reads
      the title first: a search by title alone sends `None` as the first
      argument. */
  lemma SearchByTitleOnly(title: string)
    ensures SearchArguments(map["title" := title]) == SearchCall(None, Some(title), None, None, None)
  {
  }
}
