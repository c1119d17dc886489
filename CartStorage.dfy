/** The browser-side cart of Frontend/ordering_system/src/helpers/cartStorage.ts:
    an ordered list of `{book, quantity}` lines kept as JSON in one
    local-storage entry. The entry is modelled by the decoded list it holds
    (encoding and decoding give back the same lines); prices are whole cents. */
module CartStorage {
  import opened Wrappers

  /** The local-storage key the cart lives under. */
  const CartStorageKey := "book_cart"

  /** The fields of a book the cart reads. A book from the back end carries
      `ISBN_number` and `selling_price`, one built by the front end carries
      `isbn` and `price`; a field the object lacks is `None` (`undefined`). */
  datatype Book = Book(
    isbn: Option<string>,
    isbnNumber: Option<string>,
    title: string,
    price: Option<int>,
    sellingPrice: Option<int>)

  datatype CartItem = CartItem(book: Book, quantity: int)

  type Cart = seq<CartItem>

  /** The matching rule of `findIndex`, `find` and `filter`: a line matches
      when either of its ISBN fields is strictly equal to the key. The key is
      compared as given, so an absent key (`undefined`) matches every line
      whose book lacks one of the two fields. */
  predicate Matches(item: CartItem, key: Option<string>) {
    item.book.isbn == key || item.book.isbnNumber == key
  }

  /** `findIndex`: the position of the first matching line, if any. */
  function FirstMatch(cart: Cart, key: Option<string>): (r: Option<nat>)
    ensures r.Some? ==> r.value < |cart| && Matches(cart[r.value], key)
    ensures r.Some? ==> forall j :: 0 <= j < r.value ==> !Matches(cart[j], key)
    ensures r.None? <==> forall j :: 0 <= j < |cart| ==> !Matches(cart[j], key)
    decreases |cart|
  {
    if cart == [] then None
    else if Matches(cart[0], key) then Some(0)
    else match FirstMatch(cart[1..], key)
      case None => None
      case Some(i) => Some(i + 1)
  }

  /** The lines after `addToCart(book, quantity)`: the first line matching
      `book.isbn` grows by `quantity`, otherwise `{book, quantity}` is appended. */
  function AddLine(cart: Cart, book: Book, quantity: int): (r: Cart)
    ensures FirstMatch(cart, book.isbn).Some? ==>
              var i := FirstMatch(cart, book.isbn).value;
              |r| == |cart| && r[i] == CartItem(cart[i].book, cart[i].quantity + quantity)
              && forall j :: 0 <= j < |cart| && j != i ==> r[j] == cart[j]
    ensures FirstMatch(cart, book.isbn).None? ==> r == cart + [CartItem(book, quantity)]
  {
    match FirstMatch(cart, book.isbn)
    case Some(i) => cart[i := cart[i].(quantity := cart[i].quantity + quantity)]
    case None => cart + [CartItem(book, quantity)]
  }

  /** The lines after `removeFromCart(isbn)`: those that do not match, in order. */
  function Without(cart: Cart, isbn: string): Cart
    decreases |cart|
  {
    if cart == [] then []
    else if Matches(cart[0], Some(isbn)) then Without(cart[1..], isbn)
    else [cart[0]] + Without(cart[1..], isbn)
  }

  function Max(a: int, b: int): int {
    if a >= b then a else b
  }

  /** The lines after `updateQuantity(isbn, quantity)` when a line matches:
      the first matching line holds `max(1, quantity)`. */
  function SetQuantity(cart: Cart, isbn: string, quantity: int): (r: Cart)
    ensures |r| == |cart|
    ensures FirstMatch(cart, Some(isbn)).Some? ==>
              var i := FirstMatch(cart, Some(isbn)).value;
              r[i] == CartItem(cart[i].book, Max(1, quantity))
              && forall j :: 0 <= j < |cart| && j != i ==> r[j] == cart[j]
    ensures FirstMatch(cart, Some(isbn)).None? ==> r == cart
  {
    match FirstMatch(cart, Some(isbn))
    case Some(i) => cart[i := cart[i].(quantity := Max(1, quantity))]
    case None => cart
  }

  /** JavaScript `||` on an optional number: absent and 0 are falsy. */
  predicate Truthy(n: Option<int>) {
    n.Some? && n.value != 0
  }

  /** `item.book.price || item.book.selling_price || 0`. */
  function UnitPrice(book: Book): int {
    if Truthy(book.price) then book.price.value
    else if Truthy(book.sellingPrice) then book.sellingPrice.value
    else 0
  }

  /** `getCartCount`'s `reduce`: the quantities summed left to right. */
  function Count(cart: Cart): int
    decreases |cart|
  {
    if cart == [] then 0 else Count(cart[..|cart| - 1]) + cart[|cart| - 1].quantity
  }

  /** `getTotalPrice`'s `reduce`: unit price times quantity, summed left to right. */
  function Total(cart: Cart): int
    decreases |cart|
  {
    if cart == [] then 0
    else Total(cart[..|cart| - 1]) + UnitPrice(cart[|cart| - 1].book) * cart[|cart| - 1].quantity
  }

  /** The number of lines that match `key`. */
  function MatchCount(cart: Cart, key: Option<string>): nat
    decreases |cart|
  {
    if cart == [] then 0 else (if Matches(cart[0], key) then 1 else 0) + MatchCount(cart[1..], key)
  }

  /** Every line holds at least one copy. */
  predicate AllPositive(cart: Cart) {
    forall i :: 0 <= i < |cart| ==> cart[i].quantity >= 1
  }

  // Sums over the lines.

  /** The count of a cart is the count of its parts. */
  lemma {:induction false} CountConcat(a: Cart, b: Cart)
    ensures Count(a + b) == Count(a) + Count(b)
    decreases |b|
  {
    if b == [] {
      assert a + b == a;
    } else {
      assert (a + b)[..|a + b| - 1] == a + b[..|b| - 1];
      CountConcat(a, b[..|b| - 1]);
    }
  }

  /** The total of a cart is the total of its parts. */
  lemma {:induction false} TotalConcat(a: Cart, b: Cart)
    ensures Total(a + b) == Total(a) + Total(b)
    decreases |b|
  {
    if b == [] {
      assert a + b == a;
    } else {
      assert (a + b)[..|a + b| - 1] == a + b[..|b| - 1];
      TotalConcat(a, b[..|b| - 1]);
    }
  }

  /** Replacing one line changes the count by the difference of its quantities. */
  lemma CountUpdate(cart: Cart, i: nat, x: CartItem)
    requires i < |cart|
    ensures Count(cart[i := x]) == Count(cart) - cart[i].quantity + x.quantity
  {
    assert cart == cart[..i] + [cart[i]] + cart[i + 1..];
    assert cart[i := x] == cart[..i] + [x] + cart[i + 1..];
    CountConcat(cart[..i] + [cart[i]], cart[i + 1..]);
    CountConcat(cart[..i], [cart[i]]);
    CountConcat(cart[..i] + [x], cart[i + 1..]);
    CountConcat(cart[..i], [x]);
  }

  /** Replacing one line changes the total by the difference of its line totals. */
  lemma TotalUpdate(cart: Cart, i: nat, x: CartItem)
    requires i < |cart|
    ensures Total(cart[i := x])
            == Total(cart) - UnitPrice(cart[i].book) * cart[i].quantity + UnitPrice(x.book) * x.quantity
  {
    assert cart == cart[..i] + [cart[i]] + cart[i + 1..];
    assert cart[i := x] == cart[..i] + [x] + cart[i + 1..];
    TotalConcat(cart[..i] + [cart[i]], cart[i + 1..]);
    TotalConcat(cart[..i], [cart[i]]);
    TotalConcat(cart[..i] + [x], cart[i + 1..]);
    TotalConcat(cart[..i], [x]);
  }

  /** `addToCart(book, q)` raises the item count by exactly `q`. */
  lemma CountAfterAdd(cart: Cart, book: Book, quantity: int)
    ensures Count(AddLine(cart, book, quantity)) == Count(cart) + quantity
  {
    match FirstMatch(cart, book.isbn)
    case Some(i) =>
      CountUpdate(cart, i, CartItem(cart[i].book, cart[i].quantity + quantity));
    case None =>
      CountConcat(cart, [CartItem(book, quantity)]);
  }

  /** `addToCart(book, q)` raises the total by `q` copies at the unit price of
      the line that takes them: the line already in the cart when one matches
      (its stored book, not the one passed in), the new book otherwise. */
  lemma TotalAfterAdd(cart: Cart, book: Book, quantity: int)
    ensures var charged := match FirstMatch(cart, book.isbn)
                           case Some(i) => cart[i].book
                           case None => book;
            Total(AddLine(cart, book, quantity)) == Total(cart) + UnitPrice(charged) * quantity
  {
    match FirstMatch(cart, book.isbn)
    case Some(i) =>
      var x := CartItem(cart[i].book, cart[i].quantity + quantity);
      TotalUpdate(cart, i, x);
      calc {
        UnitPrice(x.book) * x.quantity;
        UnitPrice(cart[i].book) * cart[i].quantity + UnitPrice(cart[i].book) * quantity;
      }
    case None =>
      TotalConcat(cart, [CartItem(book, quantity)]);
  }

  /** `updateQuantity` changes the count by the clamped difference on the line it hits. */
  lemma CountAfterSetQuantity(cart: Cart, isbn: string, quantity: int)
    requires FirstMatch(cart, Some(isbn)).Some?
    ensures var i := FirstMatch(cart, Some(isbn)).value;
            Count(SetQuantity(cart, isbn, quantity)) == Count(cart) - cart[i].quantity + Max(1, quantity)
  {
    var i := FirstMatch(cart, Some(isbn)).value;
    CountUpdate(cart, i, CartItem(cart[i].book, Max(1, quantity)));
  }

  /** No request to `updateQuantity` leaves a line below one copy, and adding
      at least one copy keeps every line at one or more. */
  lemma QuantitiesStayPositive(cart: Cart, book: Book, isbn: string, quantity: int)
    requires AllPositive(cart)
    ensures AllPositive(SetQuantity(cart, isbn, quantity))
    ensures quantity >= 1 ==> AllPositive(AddLine(cart, book, quantity))
  {
  }

  // The removal filter.

  /** No line left by `removeFromCart(isbn)` matches `isbn`. */
  lemma {:induction false} WithoutNoMatch(cart: Cart, isbn: string)
    ensures forall i :: 0 <= i < |Without(cart, isbn)| ==> !Matches(Without(cart, isbn)[i], Some(isbn))
    decreases |cart|
  {
    if cart != [] {
      WithoutNoMatch(cart[1..], isbn);
    }
  }

  /** Every line that does not match is kept, as often as it occurs; every
      line that matches is gone. */
  lemma {:induction false} WithoutKeepsOthers(cart: Cart, isbn: string)
    ensures forall x :: !Matches(x, Some(isbn)) ==> multiset(Without(cart, isbn))[x] == multiset(cart)[x]
    ensures forall x :: Matches(x, Some(isbn)) ==> multiset(Without(cart, isbn))[x] == 0
    decreases |cart|
  {
    if cart != [] {
      WithoutKeepsOthers(cart[1..], isbn);
      assert cart == [cart[0]] + cart[1..];
    }
  }

  /** The filter works line by line, so the kept lines stay in their order. */
  lemma {:induction false} WithoutConcat(a: Cart, b: Cart, isbn: string)
    ensures Without(a + b, isbn) == Without(a, isbn) + Without(b, isbn)
    decreases |a|
  {
    if a == [] {
      assert a + b == b;
    } else {
      assert (a + b)[1..] == a[1..] + b;
      WithoutConcat(a[1..], b, isbn);
    }
  }

  /** Removing an ISBN twice leaves what removing it once left. */
  lemma {:induction false} WithoutIdempotent(cart: Cart, isbn: string)
    ensures Without(Without(cart, isbn), isbn) == Without(cart, isbn)
    decreases |cart|
  {
    if cart != [] {
      WithoutIdempotent(cart[1..], isbn);
    }
  }

  /** Removing an ISBN that no line carries leaves the cart as it was. */
  lemma {:induction false} WithoutAbsent(cart: Cart, isbn: string)
    requires FirstMatch(cart, Some(isbn)).None?
    ensures Without(cart, isbn) == cart
    decreases |cart|
  {
    if cart != [] {
      assert !Matches(cart[0], Some(isbn));
      WithoutAbsent(cart[1..], isbn);
      assert cart == [cart[0]] + cart[1..];
    }
  }

  // Adding the same book several times.

  /** `addToCart(book, qs[0]); addToCart(book, qs[1]); ...` */
  function AddAll(cart: Cart, book: Book, qs: seq<int>): Cart
    decreases |qs|
  {
    if qs == [] then cart else AddAll(AddLine(cart, book, qs[0]), book, qs[1..])
  }

  function Sum(qs: seq<int>): int
    decreases |qs|
  {
    if qs == [] then 0 else qs[0] + Sum(qs[1..])
  }

  /** Once a line matches the book, every further add lands on that line. */
  lemma {:induction false} AddAllExisting(cart: Cart, book: Book, qs: seq<int>)
    requires FirstMatch(cart, book.isbn).Some?
    ensures var i := FirstMatch(cart, book.isbn).value;
            AddAll(cart, book, qs) == cart[i := CartItem(cart[i].book, cart[i].quantity + Sum(qs))]
    decreases |qs|
  {
    var i := FirstMatch(cart, book.isbn).value;
    if qs == [] {
      assert cart[i := CartItem(cart[i].book, cart[i].quantity)] == cart;
    } else {
      var next := AddLine(cart, book, qs[0]);
      assert FirstMatch(next, book.isbn) == Some(i) by {
        FirstMatchUnchanged(cart, i, next[i], book.isbn);
      }
      AddAllExisting(next, book, qs[1..]);
      assert next[i := CartItem(next[i].book, next[i].quantity + Sum(qs[1..]))]
          == cart[i := CartItem(cart[i].book, cart[i].quantity + Sum(qs))];
    }
  }

  /** Changing the quantity of the first matching line keeps it the first match. */
  lemma FirstMatchUnchanged(cart: Cart, i: nat, x: CartItem, key: Option<string>)
    requires FirstMatch(cart, key) == Some(i) && x.book == cart[i].book
    ensures FirstMatch(cart[i := x], key) == Some(i)
  {
    assert Matches(cart[i := x][i], key);
    assert forall j :: 0 <= j < i ==> cart[i := x][j] == cart[j];
  }

  /** Adding a book that no line matches, any number of times with quantities
      `qs`, leaves exactly one matching line for it, appended at the end and
      holding the sum of the quantities. */
  lemma AddAllFresh(cart: Cart, book: Book, qs: seq<int>)
    requires |qs| > 0 && FirstMatch(cart, book.isbn).None?
    ensures AddAll(cart, book, qs) == cart + [CartItem(book, Sum(qs))]
    ensures MatchCount(AddAll(cart, book, qs), book.isbn) == 1
  {
    var first := cart + [CartItem(book, qs[0])];
    assert AddLine(cart, book, qs[0]) == first;
    AppendedIsFirstMatch(cart, CartItem(book, qs[0]), book.isbn);
    AddAllExisting(first, book, qs[1..]);
    assert first[|cart| := CartItem(book, qs[0] + Sum(qs[1..]))] == cart + [CartItem(book, Sum(qs))];
    NoMatchCount(cart, book.isbn);
    MatchCountConcat(cart, [CartItem(book, Sum(qs))], book.isbn);
  }

  /** A line appended to a cart with no match for its key is that key's first match. */
  lemma AppendedIsFirstMatch(cart: Cart, x: CartItem, key: Option<string>)
    requires FirstMatch(cart, key).None? && Matches(x, key)
    ensures FirstMatch(cart + [x], key) == Some(|cart|)
  {
    assert (cart + [x])[|cart|] == x;
    assert forall j :: 0 <= j < |cart| ==> (cart + [x])[j] == cart[j];
  }

  lemma {:induction false} NoMatchCount(cart: Cart, key: Option<string>)
    requires FirstMatch(cart, key).None?
    ensures MatchCount(cart, key) == 0
    decreases |cart|
  {
    if cart != [] {
      NoMatchCount(cart[1..], key);
    }
  }

  lemma {:induction false} MatchCountConcat(a: Cart, b: Cart, key: Option<string>)
    ensures MatchCount(a + b, key) == MatchCount(a, key) + MatchCount(b, key)
    decreases |a|
  {
    if a == [] {
      assert a + b == b;
    } else {
      assert (a + b)[1..] == a[1..] + b;
      MatchCountConcat(a[1..], b, key);
    }
  }

  /** The figures of a two-line cart: two copies at $10.00 and one at $25.00
      make three items and $45.00. */
  lemma TwoLineCart()
    ensures var cart := [CartItem(Book(Some("111"), None, "A", Some(1000), None), 2),
                         CartItem(Book(Some("222"), None, "B", Some(2500), None), 1)];
            Count(cart) == 3 && Total(cart) == 4500
  {
    var cart := [CartItem(Book(Some("111"), None, "A", Some(1000), None), 2),
                 CartItem(Book(Some("222"), None, "B", Some(2500), None), 1)];
    assert cart[..1] == [cart[0]];
    assert cart[..1][..0] == [];
  }

  /** A book that carries only `ISBN_number` has no `isbn`, and `undefined`
      equals the absent `ISBN_number` of any front-end-shaped line: such a
      book is merged into the first line whose book lacks `ISBN_number`. */
  lemma AbsentIsbnMergesIntoOtherLine()
    ensures var line := CartItem(Book(Some("111"), None, "A", Some(1000), None), 2);
            var other := Book(None, Some("222"), "B", None, Some(2500));
            AddLine([line], other, 1) == [CartItem(line.book, 3)]
  {
  }

  /** The storage entry, as the page sees it. */
  class CartStore {
    /** `typeof window !== "undefined"`: false on the server-rendering path. */
    const hasWindow: bool
    /** `localStorage["book_cart"]`, decoded; `None` when the entry is absent. */
    var slot: Option<Cart>

    constructor (hasWindow: bool, stored: Option<Cart>)
      ensures this.hasWindow == hasWindow && slot == stored
    {
      this.hasWindow := hasWindow;
      slot := stored;
    }

    /** `getCart`: the stored lines, or none when nothing is stored or there is no window. */
    function GetCart(): (cart: Cart)
      reads this
      ensures !hasWindow || slot.None? ==> cart == []
      ensures hasWindow && slot.Some? ==> cart == slot.value
    {
      if !hasWindow then [] else slot.GetOr([])
    }

    /** `getCartCount`: the sum of the quantities of the stored lines. */
    function GetCartCount(): int
      reads this
    {
      Count(GetCart())
    }

    /** `getTotalPrice`: the sum over the stored lines of unit price times quantity. */
    function GetTotalPrice(): int
      reads this
    {
      Total(GetCart())
    }

    /** `addToCart(book, quantity = 1)`: read, merge or append, write back once. */
    method AddToCart(book: Book, quantity: int := 1)
      requires hasWindow
      modifies this
      ensures slot == Some(AddLine(old(GetCart()), book, quantity))
    {
      var cart := GetCart();
      var existingIndex := FirstMatch(cart, book.isbn);
      if existingIndex.Some? {
        var i := existingIndex.value;
        cart := cart[i := cart[i].(quantity := cart[i].quantity + quantity)];
      } else {
        cart := cart + [CartItem(book, quantity)];
      }
      slot := Some(cart);
    }

    /** `removeFromCart(isbn)`: write back the lines that do not match. */
    method RemoveFromCart(isbn: string)
      requires hasWindow
      modifies this
      ensures slot == Some(Without(old(GetCart()), isbn))
    {
      var cart := GetCart();
      var filtered := Without(cart, isbn);
      slot := Some(filtered);
    }

    /** `updateQuantity(isbn, quantity)`: when a line matches, its quantity
        becomes `max(1, quantity)` and the lines are written back; when none
        does, the entry is not written at all. */
    method UpdateQuantity(isbn: string, quantity: int)
      requires hasWindow
      modifies this
      ensures FirstMatch(old(GetCart()), Some(isbn)).Some? ==>
                slot == Some(SetQuantity(old(GetCart()), isbn, quantity))
      ensures FirstMatch(old(GetCart()), Some(isbn)).None? ==> slot == old(slot)
    {
      var cart := GetCart();
      var item := FirstMatch(cart, Some(isbn));
      if item.Some? {
        var i := item.value;
        cart := cart[i := cart[i].(quantity := Max(1, quantity))];
        slot := Some(cart);
      }
    }

    /** `clearCart`: the entry is removed. */
    method ClearCart()
      requires hasWindow
      modifies this
      ensures slot == None
      ensures GetCart() == [] && GetCartCount() == 0 && GetTotalPrice() == 0
    {
      slot := None;
    }
  }
}
