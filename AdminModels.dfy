/** The catalogue writes of Backend/admins/models.py over an in-memory
    copy of the tables they touch: `create_book`, `update_book`,
    `delete_book` and `confirm_publisher_order`.

    Each function runs on its own request's connection, which is closed at
    the end of the request: what a function has not committed when it
    raises is discarded, so a call that raises leaves the tables as they
    were. `cursor.rowcount` is that of the last statement the cursor ran
    (-1 when it ran none) and, for an UPDATE, counts the rows whose values
    actually changed. */
module AdminModels {
  import opened Wrappers
  import opened Py
  import opened SqlText

  /** The columns of a `book` row other than `ISBN_number`. */
  datatype BookRow = BookRow(
    title: Value,
    publicationYear: Value,
    quantityStock: Value,
    category: Value,
    threshold: Value,
    sellingPrice: Value,
    publisherId: Value,
    bookImage: Value)

  /** A publisher order's `status`. */
  datatype Status = Pending | Confirmed

  /** The rows the admin model reads and writes: books by `ISBN_number`,
      the author names of each book in insertion order, publisher orders'
      statuses by `order_id`, and the ISBNs that order rows refer to. */
  datatype Tables = Tables(
    books: map<Value, BookRow>,
    authors: map<Value, seq<Value>>,
    publisherOrders: map<int, Status>,
    ordered: set<Value>)

  /** Author rows and order rows refer to existing books. */
  predicate Consistent(t: Tables) {
    t.authors.Keys <= t.books.Keys && t.ordered <= t.books.Keys
  }

  function AuthorsOf(t: Tables, isbn: Value): seq<Value> {
    if isbn in t.authors then t.authors[isbn] else []
  }

  /** A value the driver can send for a `%s` marker: a list or an object is refused. */
  predicate Bindable(v: Value) {
    !v.List? && !v.Dict?
  }

  predicate AllBindable(vs: seq<Value>) {
    forall i :: 0 <= i < |vs| ==> Bindable(vs[i])
  }

  const NotBindable := OtherError("Python type cannot be converted")
  const DuplicateIsbn := IntegrityError("Duplicate entry for key 'PRIMARY'")
  const MissingBook := IntegrityError("Cannot add or update a child row: a foreign key constraint fails")
  const StillOrdered := IntegrityError("Cannot delete or update a parent row: a foreign key constraint fails")
  const NotIterable := TypeError("object is not iterable")

  // The SET clause of `update_book`.

  /** The arguments of `update_book` after the ISBN, `None` for those not given. */
  datatype BookChanges = BookChanges(
    title: Value,
    publicationYear: Value,
    quantityStock: Value,
    category: Value,
    threshold: Value,
    sellingPrice: Value,
    publisherId: Value,
    bookImage: Value)

  /** Each optional column with its argument, in the order `update_book` tests them. */
  function Fields(c: BookChanges): seq<(string, Value)> {
    [("title", c.title), ("publication_year", c.publicationYear), ("quantity_stock", c.quantityStock),
     ("category", c.category), ("threshold", c.threshold), ("selling_price", c.sellingPrice),
     ("publisher_id", c.publisherId), ("book_image", c.bookImage)]
  }

  /** The fields that are set, those whose argument is not `None`, in the order tested. */
  function Assigned(fs: seq<(string, Value)>): seq<(string, Value)>
    decreases |fs|
  {
    if fs == [] then []
    else Assigned(fs[..|fs| - 1]) + (if fs[|fs| - 1].1 != Null then [fs[|fs| - 1]] else [])
  }

  /** `"col = %s"` for each field that is set. */
  function Fragments(ps: seq<(string, Value)>): (us: seq<string>)
    ensures |us| == |ps| && forall i :: 0 <= i < |ps| ==> us[i] == ps[i].0 + " = %s"
  {
    seq(|ps|, i requires 0 <= i < |ps| => ps[i].0 + " = %s")
  }

  /** The argument of each field that is set. */
  function Arguments(ps: seq<(string, Value)>): (vs: seq<Value>)
    ensures |vs| == |ps| && forall i :: 0 <= i < |ps| ==> vs[i] == ps[i].1
  {
    seq(|ps|, i requires 0 <= i < |ps| => ps[i].1)
  }

  /** The fields set are exactly those whose argument is not `None`. */
  lemma {:induction false} AssignedShape(fs: seq<(string, Value)>)
    ensures forall x :: x in Assigned(fs) <==> x in fs && x.1 != Null
    ensures Assigned(fs) == [] <==> forall i :: 0 <= i < |fs| ==> fs[i].1 == Null
    decreases |fs|
  {
    if fs != [] {
      var init := fs[..|fs| - 1];
      AssignedShape(init);
      assert fs == init + [fs[|fs| - 1]];
      assert forall x :: x in fs <==> x in init || x == fs[|fs| - 1];
      if Assigned(fs) == [] {
        forall i | 0 <= i < |fs| ensures fs[i].1 == Null {
          assert fs[i] in fs;
        }
      }
    }
  }

  /** One `if arg is not None: updates.append("col = %s"); params.append(arg)`
      block, for the `k`-th column. */
  method AppendIfGiven(updates: seq<string>, params: seq<Value>, ghost done: seq<(string, Value)>,
                       c: BookChanges, k: nat)
    returns (updates': seq<string>, params': seq<Value>, ghost done': seq<(string, Value)>)
    requires k < |Fields(c)| && done == Fields(c)[..k]
    requires updates == Fragments(Assigned(done)) && params == Arguments(Assigned(done))
    ensures done' == Fields(c)[..k + 1]
    ensures updates' == Fragments(Assigned(done')) && params' == Arguments(Assigned(done'))
  {
    var f := Fields(c)[k];
    done' := Fields(c)[..k + 1];
    assert done'[..k] == done && done'[k] == f;
    updates', params' := updates, params;
    if f.1 != Null {
      updates' := updates + [f.0 + " = %s"];
      params' := params + [f.1];
    }
  }

  /** `update_book`'s `updates` and `params`, built as the source builds
      them: one conditional append per column, in column order. */
  method BuildAssignments(c: BookChanges) returns (updates: seq<string>, params: seq<Value>)
    ensures updates == Fragments(Assigned(Fields(c))) && params == Arguments(Assigned(Fields(c)))
  {
    ghost var done: seq<(string, Value)> := [];
    updates, params := [], [];
    updates, params, done := AppendIfGiven(updates, params, done, c, 0);
    updates, params, done := AppendIfGiven(updates, params, done, c, 1);
    updates, params, done := AppendIfGiven(updates, params, done, c, 2);
    updates, params, done := AppendIfGiven(updates, params, done, c, 3);
    updates, params, done := AppendIfGiven(updates, params, done, c, 4);
    updates, params, done := AppendIfGiven(updates, params, done, c, 5);
    updates, params, done := AppendIfGiven(updates, params, done, c, 6);
    updates, params, done := AppendIfGiven(updates, params, done, c, 7);
    assert done == Fields(c);
  }

  /** Some column is given. */
  predicate AnyGiven(c: BookChanges) {
    c.title != Null || c.publicationYear != Null || c.quantityStock != Null || c.category != Null
    || c.threshold != Null || c.sellingPrice != Null || c.publisherId != Null || c.bookImage != Null
  }

  /** Every given column can be sent to the driver. */
  predicate GivenBindable(c: BookChanges) {
    Bindable(c.title) && Bindable(c.publicationYear) && Bindable(c.quantityStock) && Bindable(c.category)
    && Bindable(c.threshold) && Bindable(c.sellingPrice) && Bindable(c.publisherId) && Bindable(c.bookImage)
  }

  /** The builder's output is empty exactly when no column is given. */
  lemma AssignedEmpty(c: BookChanges)
    ensures Assigned(Fields(c)) == [] <==> !AnyGiven(c)
  {
    var fs := Fields(c);
    AssignedShape(fs);
    if !AnyGiven(c) {
      forall i | 0 <= i < |fs| ensures fs[i].1 == Null {
        assert i == 0 || i == 1 || i == 2 || i == 3 || i == 4 || i == 5 || i == 6 || i == 7;
      }
    } else {
      assert fs[0].1 != Null || fs[1].1 != Null || fs[2].1 != Null || fs[3].1 != Null
             || fs[4].1 != Null || fs[5].1 != Null || fs[6].1 != Null || fs[7].1 != Null;
    }
  }

  /** The parameters of the fields set can all be sent exactly when every
      argument can, `None` included. */
  lemma {:induction false} ArgumentsBindable(fs: seq<(string, Value)>)
    ensures AllBindable(Arguments(Assigned(fs))) <==> forall i :: 0 <= i < |fs| ==> Bindable(fs[i].1)
    decreases |fs|
  {
    if fs != [] {
      var init, last := fs[..|fs| - 1], fs[|fs| - 1];
      ArgumentsBindable(init);
      var a := Assigned(init);
      var a' := Assigned(fs);
      assert forall i :: 0 <= i < |init| ==> init[i] == fs[i];
      if last.1 != Null {
        assert a' == a + [last];
        var va := Arguments(a);
        assert Arguments(a') == va + [last.1];
        assert AllBindable(va + [last.1]) <==> AllBindable(va) && Bindable(last.1) by {
          assert forall i :: 0 <= i < |va| ==> (va + [last.1])[i] == va[i];
          assert (va + [last.1])[|va|] == last.1;
        }
      } else {
        assert a' == a;
      }
    }
  }

  /** The builder's parameters can all be sent exactly when every given
      column can. */
  lemma AssignedBindable(c: BookChanges)
    ensures AllBindable(Arguments(Assigned(Fields(c)))) <==> GivenBindable(c)
  {
    var fs := Fields(c);
    ArgumentsBindable(fs);
    if GivenBindable(c) {
      forall i | 0 <= i < |fs| ensures Bindable(fs[i].1) {
        assert i == 0 || i == 1 || i == 2 || i == 3 || i == 4 || i == 5 || i == 6 || i == 7;
      }
    } else {
      assert !Bindable(fs[0].1) || !Bindable(fs[1].1) || !Bindable(fs[2].1) || !Bindable(fs[3].1)
             || !Bindable(fs[4].1) || !Bindable(fs[5].1) || !Bindable(fs[6].1) || !Bindable(fs[7].1);
    }
  }

  /** The UPDATE statement for a list of assignments. */
  function UpdateStatement(updates: seq<string>): string {
    "UPDATE book SET " + Join(updates, ", ") + " WHERE ISBN_number = %s"
  }

  /** A column name: lower-case letters and underscores. */
  predicate ColumnName(s: string) {
    forall i :: 0 <= i < |s| ==> 'a' <= s[i] <= 'z' || s[i] == '_'
  }

  lemma ColumnNamesA()
    ensures ColumnName("title") && ColumnName("publication_year")
    ensures ColumnName("quantity_stock") && ColumnName("category")
  {
  }

  lemma ColumnNamesB()
    ensures ColumnName("threshold") && ColumnName("selling_price")
    ensures ColumnName("publisher_id") && ColumnName("book_image")
  {
  }

  lemma FieldNames(c: BookChanges)
    ensures forall x :: x in Fields(c) ==> ColumnName(x.0)
  {
    ColumnNamesA();
    ColumnNamesB();
  }

  lemma AssignmentMarker(col: string)
    requires ColumnName(col)
    ensures Placeholders(col + " = %s") == 1 && NoOpenPercent(col + " = %s")
  {
    assert col + " = %s" == (col + " = ") + "%s";
    assert NoPercent(col + " = ") by {
      forall i | 0 <= i < |col + " = "| ensures (col + " = ")[i] != '%' {
        if i < |col| {
          assert (col + " = ")[i] == col[i];
        }
      }
    }
    TextThenMarker(col + " = ");
  }

  lemma WhereClauseText()
    ensures Placeholders(" WHERE ISBN_number = %s") == 1
  {
    assert " WHERE ISBN_number = %s" == " WHERE ISBN_number = " + "%s";
    TextThenMarker(" WHERE ISBN_number = ");
  }

  lemma AssignmentsOneMarkerEach(c: BookChanges)
    ensures SingleMarkerFragments(Fragments(Assigned(Fields(c))))
  {
    var a := Assigned(Fields(c));
    var us := Fragments(a);
    AssignedShape(Fields(c));
    FieldNames(c);
    forall i | 0 <= i < |us| ensures Placeholders(us[i]) == 1 && NoOpenPercent(us[i]) {
      assert a[i] in a;
      AssignmentMarker(a[i].0);
    }
  }

  /** The statement `update_book` runs has one marker per parameter it passes:
      one per column set, and the ISBN last. */
  lemma UpdateStatementMarkers(c: BookChanges, isbn: Value)
    ensures var params := Arguments(Assigned(Fields(c))) + [isbn];
            && Placeholders(UpdateStatement(Fragments(Assigned(Fields(c))))) == |params|
            && params[|params| - 1] == isbn
  {
    var us := Fragments(Assigned(Fields(c)));
    AssignmentsOneMarkerEach(c);
    PlaceholdersJoin(us);
    var head := "UPDATE book SET ";
    NoPercentNoMarkers(head);
    PlaceholdersAppend(head, Join(us, ", "));
    var j := Join(us, ", ");
    assert NoOpenPercent(head + j) by {
      if j != [] {
        assert (head + j)[|head + j| - 1] == j[|j| - 1];
      }
    }
    WhereClauseText();
    PlaceholdersAppend(head + j, " WHERE ISBN_number = %s");
  }

  /** The row after the UPDATE: the columns that are set take their new value. */
  function Apply(row: BookRow, c: BookChanges): BookRow {
    BookRow(
      if c.title != Null then c.title else row.title,
      if c.publicationYear != Null then c.publicationYear else row.publicationYear,
      if c.quantityStock != Null then c.quantityStock else row.quantityStock,
      if c.category != Null then c.category else row.category,
      if c.threshold != Null then c.threshold else row.threshold,
      if c.sellingPrice != Null then c.sellingPrice else row.sellingPrice,
      if c.publisherId != Null then c.publisherId else row.publisherId,
      if c.bookImage != Null then c.bookImage else row.bookImage)
  }

  function RowFields(row: BookRow): seq<Value> {
    [row.title, row.publicationYear, row.quantityStock, row.category,
     row.threshold, row.sellingPrice, row.publisherId, row.bookImage]
  }

  /** The UPDATE changes exactly the columns its SET clause names, to the
      values it passes, and keeps every other column. */
  lemma ApplySetsAssigned(row: BookRow, c: BookChanges)
    ensures forall k :: 0 <= k < 8 ==>
              RowFields(Apply(row, c))[k]
              == if Fields(c)[k] in Assigned(Fields(c)) then Fields(c)[k].1 else RowFields(row)[k]
  {
    AssignedShape(Fields(c));
  }

  /** The author rows after DELETE-then-INSERT of `names`. */
  function ReplaceAuthors(m: map<Value, seq<Value>>, isbn: Value, names: seq<Value>): map<Value, seq<Value>> {
    if names == [] then m - {isbn} else m[isbn := names]
  }

  /** The tables and `rowcount` after the UPDATE of `update_book`, which
      runs only when some column is given and changes at most the one row. */
  function UpdateRow(t: Tables, key: Value, c: BookChanges): (Tables, int) {
    if !AnyGiven(c) then (t, -1)
    else if key !in t.books then (t, 0)
    else
      var row := Apply(t.books[key], c);
      (t.(books := t.books[key := row]), if row != t.books[key] then 1 else 0)
  }

  /** `update_book(isbn, ...)`: the tables afterwards and what it returns or raises. */
  function UpdateBookResult(t: Tables, isbn: string, c: BookChanges, authors: Value): (Tables, Call<bool>) {
    var key := Str(isbn);
    var found := key in t.books;
    if AnyGiven(c) && !GivenBindable(c) then (t, Raised(NotBindable))
    else
      var (t1, updated) := UpdateRow(t, key, c);
      if authors.Null? then (t1, Returned(updated > 0))
      else match Iterate(authors)
        case None => (t, Raised(NotIterable))
        case Some(names) =>
          if names != [] && !found then (t, Raised(if Bindable(names[0]) then MissingBook else NotBindable))
          else if !AllBindable(names) then (t, Raised(NotBindable))
          else
            var deleted := |AuthorsOf(t1, key)|;
            (t1.(authors := ReplaceAuthors(t1.authors, key, names)),
             Returned(if names == [] then deleted > 0 else true))
  }

  /** `update_book` on an existing book: the book's row becomes the old row
      with the given columns replaced; the author list becomes exactly the
      names given, in order (none for an empty list), or stays as it was
      when `authors` is `None`; no other book changes; a call that raises
      changes nothing. */
  lemma UpdateBookEffect(t: Tables, isbn: string, c: BookChanges, authors: Value)
    requires Str(isbn) in t.books && GivenBindable(c)
    ensures var (t', r) := UpdateBookResult(t, isbn, c, authors);
            var key := Str(isbn);
            && (authors.Null? ==> r.Returned? && t'.authors == t.authors)
            && (r.Returned? ==>
                  && t'.books == t.books[key := Apply(t.books[key], c)]
                  && t'.publisherOrders == t.publisherOrders && t'.ordered == t.ordered
                  && (Iterate(authors).Some? ==> AuthorsOf(t', key) == Iterate(authors).value)
                  && forall other :: other != key ==> AuthorsOf(t', other) == AuthorsOf(t, other))
            && (r.Raised? ==> t' == t)
            && (authors == List([]) ==> r.Returned? && AuthorsOf(t', key) == [])
  {
    var key := Str(isbn);
    if !AnyGiven(c) {
      assert Apply(t.books[key], c) == t.books[key];
      assert t.books[key := Apply(t.books[key], c)] == t.books;
    }
  }

  /** What `update_book` returns, `cursor.rowcount > 0` of its last statement:
      with `authors` given, true for a non-empty list of names, and for an
      empty one only when the book had authors to delete; without `authors`,
      true exactly when the UPDATE ran and changed the row. */
  lemma UpdateBookReturns(t: Tables, isbn: string, c: BookChanges, authors: Value)
    requires Str(isbn) in t.books && GivenBindable(c)
    ensures var r := UpdateBookResult(t, isbn, c, authors).1;
            var key := Str(isbn);
            && (authors.Null? ==>
                  (r == Returned(true) <==> AnyGiven(c) && Apply(t.books[key], c) != t.books[key]))
            && (Iterate(authors).Some? && AllBindable(Iterate(authors).value) ==>
                  (r == Returned(true) <==> Iterate(authors).value != [] || AuthorsOf(t, key) != []))
  {
  }

  /** Setting a new title and clearing the authors of a book that has none
      stores the title but reports that nothing changed. */
  lemma TitleWithEmptyAuthors(t: Tables, isbn: string, title: string)
    requires Str(isbn) in t.books && AuthorsOf(t, Str(isbn)) == []
    ensures var c := BookChanges(Str(title), Null, Null, Null, Null, Null, Null, Null);
            var (t', r) := UpdateBookResult(t, isbn, c, List([]));
            t'.books[Str(isbn)].title == Str(title) && r == Returned(false)
  {
  }

  /** `update_book` with an `authors` value that cannot be iterated (a
      number or a boolean) raises `TypeError` and leaves every table as it
      was, including a row the UPDATE had already changed. */
  lemma UpdateBookNotIterable(t: Tables, isbn: string, c: BookChanges, authors: Value)
    requires authors.Bool? || authors.Int? || authors.Float?
    ensures UpdateBookResult(t, isbn, c, authors) == (t, Raised(NotIterable))
            || UpdateBookResult(t, isbn, c, authors) == (t, Raised(NotBindable))
  {
  }

  /** `confirm_publisher_order(order_id)`: only a pending order changes,
      to confirmed; the result says whether a row changed. */
  function ConfirmResult(t: Tables, orderId: int): (Tables, bool) {
    if orderId in t.publisherOrders && t.publisherOrders[orderId] == Pending
    then (t.(publisherOrders := t.publisherOrders[orderId := Confirmed]), true)
    else (t, false)
  }

  /** True exactly for an existing pending order, which becomes confirmed;
      no other order and no other table changes, and a false result
      changes nothing. */
  lemma ConfirmRule(t: Tables, orderId: int)
    ensures var (t', changed) := ConfirmResult(t, orderId);
            && (changed <==> orderId in t.publisherOrders && t.publisherOrders[orderId] == Pending)
            && (changed ==> t'.publisherOrders[orderId] == Confirmed)
            && t'.publisherOrders.Keys == t.publisherOrders.Keys
            && (forall o :: o in t.publisherOrders && o != orderId ==> t'.publisherOrders[o] == t.publisherOrders[o])
            && t'.books == t.books && t'.authors == t.authors && t'.ordered == t.ordered
            && (!changed ==> t' == t)
  {
  }

  /** Confirming the same order a second time returns false and changes nothing. */
  lemma ConfirmTwice(t: Tables, orderId: int)
    ensures var t' := ConfirmResult(t, orderId).0;
            ConfirmResult(t', orderId) == (t', false)
  {
  }

  /** `delete_book(isbn)`: a book that order rows refer to cannot be
      deleted; otherwise the book and its author rows go, and the result
      says whether there was one. */
  function DeleteBookResult(t: Tables, isbn: string): (Tables, Call<bool>) {
    var key := Str(isbn);
    if key in t.ordered then (t, Raised(StillOrdered))
    else if key in t.books then (t.(books := t.books - {key}, authors := t.authors - {key}), Returned(true))
    else (t, Returned(false))
  }

  lemma DeleteBookRule(t: Tables, isbn: string)
    ensures var (t', r) := DeleteBookResult(t, isbn);
            var key := Str(isbn);
            && (r == Returned(true) <==> key in t.books && key !in t.ordered)
            && (r.Raised? <==> key in t.ordered)
            && (r.Raised? ==> r.error.IntegrityError?)
            && (r != Returned(true) ==> t' == t)
            && key !in t'.books - (if r.Raised? then {key} else {})
            && (forall other :: other in t.books && other != key ==> other in t'.books && t'.books[other] == t.books[other])
            && t'.publisherOrders == t.publisherOrders && t'.ordered == t.ordered
  {
  }

  /** Deleting twice: the second call finds nothing. */
  lemma DeleteBookTwice(t: Tables, isbn: string)
    requires DeleteBookResult(t, isbn).1 == Returned(true)
    ensures var t' := DeleteBookResult(t, isbn).0;
            DeleteBookResult(t', isbn) == (t', Returned(false))
  {
  }

  function AppendAuthors(t: Tables, isbn: Value, names: seq<Value>): map<Value, seq<Value>> {
    if names == [] then t.authors else t.authors[isbn := AuthorsOf(t, isbn) + names]
  }

  /** `create_book(...)`: insert the book, then one author row per name,
      then commit; any error before the commit leaves nothing behind.
      `engine` is an error the book INSERT raises for reasons outside the
      tables modelled here (a `publisher_id` naming no publisher, a column
      type the database refuses), or none; it is raised by the first
      statement, before any author is inserted. */
  function CreateBookResult(t: Tables, isbn: Value, row: BookRow, authors: seq<Value>, engine: Option<Exception>)
    : (Tables, Call<bool>)
  {
    if !AllBindable([isbn] + RowFields(row)) then (t, Raised(NotBindable))
    else if isbn in t.books then (t, Raised(DuplicateIsbn))
    else if engine.Some? then (t, Raised(engine.value))
    else if !AllBindable(authors) then (t, Raised(NotBindable))
    else (t.(books := t.books[isbn := row], authors := AppendAuthors(t, isbn, authors)), Returned(true))
  }

  /** All or nothing: either the book and one author row per name are
      there afterwards, or the tables are as they were; an ISBN already in
      the catalogue raises `IntegrityError`. */
  lemma CreateBookAllOrNothing(t: Tables, isbn: Value, row: BookRow, authors: seq<Value>, engine: Option<Exception>)
    requires Consistent(t)
    ensures var (t', r) := CreateBookResult(t, isbn, row, authors, engine);
            && (r.Raised? ==> t' == t)
            && (r.Returned? ==>
                  && r.value
                  && t'.books == t.books[isbn := row]
                  && AuthorsOf(t', isbn) == authors
                  && (forall other :: other != isbn ==> AuthorsOf(t', other) == AuthorsOf(t, other))
                  && t'.publisherOrders == t.publisherOrders && t'.ordered == t.ordered)
            && (isbn in t.books && AllBindable([isbn] + RowFields(row)) ==> r == Raised(DuplicateIsbn))
            && (isbn !in t.books && AllBindable([isbn] + RowFields(row)) && engine.Some? ==>
                  r == Raised(engine.value))
            && (r.Returned? <==>
                  isbn !in t.books && AllBindable([isbn] + RowFields(row)) && AllBindable(authors) && engine.None?)
  {
  }

  /** None of the writes leaves an author row or an order row without its book. */
  lemma WritesKeepConsistent(t: Tables, isbn: string, c: BookChanges, authors: Value, orderId: int,
                             newIsbn: Value, row: BookRow, names: seq<Value>, engine: Option<Exception>)
    requires Consistent(t)
    ensures Consistent(UpdateBookResult(t, isbn, c, authors).0)
    ensures Consistent(ConfirmResult(t, orderId).0)
    ensures Consistent(DeleteBookResult(t, isbn).0)
    ensures Consistent(CreateBookResult(t, newIsbn, row, names, engine).0)
  {
  }

  /** The database as the model functions see it. */
  class Catalog {
    var books: map<Value, BookRow>
    var authorRows: map<Value, seq<Value>>
    var publisherOrders: map<int, Status>
    var ordered: set<Value>

    constructor (t: Tables)
      ensures State() == t
    {
      books, authorRows, publisherOrders, ordered := t.books, t.authors, t.publisherOrders, t.ordered;
    }

    function State(): Tables
      reads this
    {
      Tables.Tables(books, authorRows, publisherOrders, ordered)
    }

    function NamesOf(isbn: Value): seq<Value>
      reads this
    {
      if isbn in authorRows then authorRows[isbn] else []
    }

    /** The connection is closed without a commit: back to where the call began. */
    method Rollback(saved: Tables)
      modifies this
      ensures State() == saved
    {
      books, authorRows, publisherOrders, ordered := saved.books, saved.authors, saved.publisherOrders, saved.ordered;
    }

    /** `update_book`: run the UPDATE when a column is set, then replace
        the authors when they are given, then commit. */
    method UpdateBook(isbn: string, c: BookChanges, authors: Value) returns (r: Call<bool>)
      modifies this
      ensures (State(), r) == UpdateBookResult(old(State()), isbn, c, authors)
    {
      var saved := State();
      var key := Str(isbn);
      var rowcount, failure := ExecuteUpdate(key, c);
      if failure.Some? {
        return Raised(failure.value);
      }
      if authors != Null {
        var names := Iterate(authors);
        if names.None? {
          Rollback(saved);
          return Raised(NotIterable);
        }
        rowcount, failure := ReplaceAuthorRows(key, names.value);
        if failure.Some? {
          Rollback(saved);
          return Raised(failure.value);
        }
      }
      return Returned(rowcount > 0);
    }

    /** The SET clause and the UPDATE of `update_book`; a parameter the
        driver refuses raises before anything changes. */
    method ExecuteUpdate(key: Value, c: BookChanges) returns (rowcount: int, failure: Option<Exception>)
      requires Bindable(key)
      modifies this
      ensures failure.Some? <==> AnyGiven(c) && !GivenBindable(c)
      ensures failure.Some? ==> failure.value == NotBindable && State() == old(State())
      ensures failure.None? ==> (State(), rowcount) == UpdateRow(old(State()), key, c)
    {
      var updates, params := BuildAssignments(c);
      AssignedEmpty(c);
      AssignedBindable(c);
      rowcount := -1;
      if updates != [] {
        assert AllBindable(params + [key]) <==> AllBindable(params) by {
          assert forall i :: 0 <= i < |params| ==> (params + [key])[i] == params[i];
        }
        params := params + [key];
        if !AllBindable(params) {
          return rowcount, Some(NotBindable);
        }
        rowcount := 0;
        if key in books {
          var row := Apply(books[key], c);
          if row != books[key] {
            rowcount := 1;
          }
          books := books[key := row];
        }
      }
      return rowcount, None;
    }

    /** The DELETE and the INSERT loop of `update_book`: the book's author
        rows become `names`; the first INSERT that fails stops the loop and
        its error is returned, for the caller to discard the connection. */
    method ReplaceAuthorRows(key: Value, names: seq<Value>) returns (rowcount: int, failure: Option<Exception>)
      modifies this
      ensures books == old(books) && publisherOrders == old(publisherOrders) && ordered == old(ordered)
      ensures failure.None? <==> (names == [] || key in books) && AllBindable(names)
      ensures failure.None? ==> authorRows == ReplaceAuthors(old(authorRows), key, names)
      ensures failure.None? ==> rowcount == if names == [] then |old(NamesOf(key))| else 1
      ensures failure.Some? ==>
                failure.value == if names != [] && key !in books && Bindable(names[0]) then MissingBook else NotBindable
    {
      rowcount := |NamesOf(key)|;
      authorRows := authorRows - {key};
      for i := 0 to |names|
        invariant books == old(books) && publisherOrders == old(publisherOrders) && ordered == old(ordered)
        invariant authorRows == ReplaceAuthors(old(authorRows), key, names[..i])
        invariant AllBindable(names[..i]) && (i > 0 ==> key in books)
        invariant rowcount == if i == 0 then |old(NamesOf(key))| else 1
      {
        if !Bindable(names[i]) {
          return rowcount, Some(NotBindable);
        }
        if key !in books {
          return rowcount, Some(MissingBook);
        }
        assert names[..i + 1] == names[..i] + [names[i]];
        authorRows := authorRows[key := NamesOf(key) + [names[i]]];
        rowcount := 1;
      }
      assert names[..|names|] == names;
      return rowcount, None;
    }

    /** `confirm_publisher_order`. */
    method ConfirmPublisherOrder(orderId: int) returns (changed: bool)
      modifies this
      ensures (State(), changed) == ConfirmResult(old(State()), orderId)
    {
      changed := false;
      if orderId in publisherOrders && publisherOrders[orderId] == Pending {
        publisherOrders := publisherOrders[orderId := Confirmed];
        changed := true;
      }
    }

    /** `delete_book`. */
    method DeleteBook(isbn: string) returns (r: Call<bool>)
      modifies this
      ensures (State(), r) == DeleteBookResult(old(State()), isbn)
    {
      var key := Str(isbn);
      if key in ordered {
        return Raised(StillOrdered);
      }
      var rowcount := 0;
      if key in books {
        books := books - {key};
        authorRows := authorRows - {key};
        rowcount := 1;
      }
      return Returned(rowcount > 0);
    }

    /** `create_book`: insert the book, then each author, then commit; on
        any error roll back and raise it again. */
    method CreateBook(isbn: Value, row: BookRow, authors: seq<Value>, engine: Option<Exception>)
      returns (r: Call<bool>)
      modifies this
      ensures (State(), r) == CreateBookResult(old(State()), isbn, row, authors, engine)
    {
      var saved := State();
      if !AllBindable([isbn] + RowFields(row)) {
        return Raised(NotBindable);
      }
      if isbn in books {
        return Raised(DuplicateIsbn);
      }
      if engine.Some? {
        return Raised(engine.value);
      }
      books := books[isbn := row];
      for i := 0 to |authors|
        invariant books == saved.books[isbn := row]
        invariant publisherOrders == saved.publisherOrders && ordered == saved.ordered
        invariant AllBindable(authors[..i])
        invariant authorRows == AppendAuthors(saved, isbn, authors[..i])
      {
        if !Bindable(authors[i]) {
          Rollback(saved);
          return Raised(NotBindable);
        }
        assert authors[..i + 1] == authors[..i] + [authors[i]];
        assert NamesOf(isbn) == AuthorsOf(saved, isbn) + authors[..i];
        assert NamesOf(isbn) + [authors[i]] == AuthorsOf(saved, isbn) + authors[..i + 1];
        assert authorRows[isbn := NamesOf(isbn) + [authors[i]]]
               == saved.authors[isbn := AuthorsOf(saved, isbn) + authors[..i + 1]];
        authorRows := authorRows[isbn := NamesOf(isbn) + [authors[i]]];
      }
      assert authors[..|authors|] == authors;
      return Returned(true);
    }
  }
}
