/** The catalogue page query of Backend/books/models.py: `get_books_model`
    grows a SELECT statement and its parameter list one filter at a time. */
module BookModels {
  import opened Wrappers
  import opened Py
  import opened SqlText

  const BaseQuery := "SELECT * FROM books WHERE 1=1"
  const SearchClause := " AND title LIKE %s"
  const CategoryClause := " AND category = %s"
  const MinPriceClause := " AND price >= %s"
  const MaxPriceClause := " AND price <= %s"
  const PageClause := " LIMIT %s OFFSET %s"

  /** One `AND` condition and the value that fills its marker. */
  datatype Filter = Filter(clause: string, param: Value)

  /** `if search:` for the search text, which is a string or `None`. */
  predicate SearchGiven(search: Option<string>) {
    search.Some? && search.value != ""
  }

  /** The conditions `get_books_model` adds, in its order: one for each
      truthy argument, nothing for a falsy one. */
  function Filters(search: Option<string>, category: Value, minPrice: Value, maxPrice: Value): seq<Filter> {
    SearchFilter(search) + ValueFilter(CategoryClause, category)
    + ValueFilter(MinPriceClause, minPrice) + ValueFilter(MaxPriceClause, maxPrice)
  }

  /** `title LIKE '%search%'` when a search text is given. */
  function SearchFilter(search: Option<string>): seq<Filter> {
    if SearchGiven(search) then [Filter(SearchClause, SearchPattern(search))] else []
  }

  /** A condition on a column, present when its argument is truthy. */
  function ValueFilter(clause: string, arg: Value): seq<Filter> {
    if Truthy(arg) then [Filter(clause, arg)] else []
  }

  function Clauses(fs: seq<Filter>): string
    decreases |fs|
  {
    if fs == [] then "" else Clauses(fs[..|fs| - 1]) + fs[|fs| - 1].clause
  }

  function Params(fs: seq<Filter>): (ps: seq<Value>)
    ensures |ps| == |fs|
    ensures forall i :: 0 <= i < |fs| ==> ps[i] == fs[i].param
    decreases |fs|
  {
    if fs == [] then [] else Params(fs[..|fs| - 1]) + [fs[|fs| - 1].param]
  }

  lemma ClausesSnoc(fs: seq<Filter>, f: Filter)
    ensures Clauses(fs + [f]) == Clauses(fs) + f.clause
    ensures Params(fs + [f]) == Params(fs) + [f.param]
  {
    assert (fs + [f])[..|fs|] == fs;
  }

  /** The statement text for a given list of conditions. */
  function BooksQuery(fs: seq<Filter>): string {
    BaseQuery + Clauses(fs) + PageClause
  }

  predicate OneMarkerEach(fs: seq<Filter>) {
    forall i :: 0 <= i < |fs| ==> OneMarker(fs[i].clause)
  }

  /** Each condition text holds one marker and does not end in `%`. */
  predicate OneMarker(clause: string) {
    Placeholders(clause) == 1 && NoOpenPercent(clause)
  }

  lemma SearchClauseText() ensures OneMarker(SearchClause) {
    assert SearchClause == " AND title LIKE " + "%s";
    TextThenMarker(" AND title LIKE ");
  }

  lemma CategoryClauseText() ensures OneMarker(CategoryClause) {
    assert CategoryClause == " AND category = " + "%s";
    TextThenMarker(" AND category = ");
  }

  lemma MinPriceClauseText() ensures OneMarker(MinPriceClause) {
    assert MinPriceClause == " AND price >= " + "%s";
    TextThenMarker(" AND price >= ");
  }

  lemma MaxPriceClauseText() ensures OneMarker(MaxPriceClause) {
    assert MaxPriceClause == " AND price <= " + "%s";
    TextThenMarker(" AND price <= ");
  }

  lemma BaseQueryText() ensures Placeholders(BaseQuery) == 0 && NoOpenPercent(BaseQuery) {
    NoPercentNoMarkers(BaseQuery);
  }

  lemma PageClauseText() ensures Placeholders(PageClause) == 2 {
    assert PageClause == (" LIMIT " + "%s") + (" OFFSET " + "%s");
    TextThenMarker(" LIMIT ");
    TextThenMarker(" OFFSET ");
    PlaceholdersAppend(" LIMIT " + "%s", " OFFSET " + "%s");
  }

  /** The condition texts `get_books_model` uses. */
  predicate KnownClause(clause: string) {
    clause == SearchClause || clause == CategoryClause || clause == MinPriceClause || clause == MaxPriceClause
  }

  lemma KnownClauseText(clause: string)
    requires KnownClause(clause)
    ensures OneMarker(clause)
  {
    if clause == SearchClause {
      SearchClauseText();
    } else if clause == CategoryClause {
      CategoryClauseText();
    } else if clause == MinPriceClause {
      MinPriceClauseText();
    } else {
      MaxPriceClauseText();
    }
  }

  lemma FiltersOneMarkerEach(search: Option<string>, category: Value, minPrice: Value, maxPrice: Value)
    ensures OneMarkerEach(Filters(search, category, minPrice, maxPrice))
  {
    var fs := Filters(search, category, minPrice, maxPrice);
    forall i | 0 <= i < |fs| ensures OneMarker(fs[i].clause) {
      assert KnownClause(fs[i].clause);
      KnownClauseText(fs[i].clause);
    }
  }

  /** The conditions contribute one marker each, and leave no `%` open. */
  lemma {:induction false} ClausesPlaceholders(fs: seq<Filter>)
    requires OneMarkerEach(fs)
    ensures Placeholders(Clauses(fs)) == |fs|
    ensures NoOpenPercent(Clauses(fs))
    decreases |fs|
  {
    if fs != [] {
      var init := fs[..|fs| - 1];
      var last := fs[|fs| - 1];
      assert OneMarkerEach(init) by {
        forall i | 0 <= i < |init| ensures OneMarker(init[i].clause) {
          assert init[i] == fs[i];
        }
      }
      ClausesPlaceholders(init);
      PlaceholdersAppend(Clauses(init), last.clause);
      assert last.clause != [];
      assert (Clauses(init) + last.clause)[|Clauses(init) + last.clause| - 1] == last.clause[|last.clause| - 1];
    }
  }

  /** The statement has exactly as many markers as there are parameters. */
  lemma QueryMarkersMatchParams(fs: seq<Filter>, limit: Value, offset: Value)
    requires OneMarkerEach(fs)
    ensures Placeholders(BooksQuery(fs)) == |Params(fs) + [limit, offset]|
  {
    BaseQueryText();
    PageClauseText();
    ClausesPlaceholders(fs);
    PlaceholdersAppend(BaseQuery, Clauses(fs));
    var head := BaseQuery + Clauses(fs);
    assert NoOpenPercent(head) by {
      if Clauses(fs) != [] {
        assert head[|head| - 1] == Clauses(fs)[|Clauses(fs)| - 1];
      }
    }
    PlaceholdersAppend(head, PageClause);
  }

  /** Every statement starts with the unfiltered SELECT ... */
  lemma QueryStartsWithBase(fs: seq<Filter>)
    ensures |BooksQuery(fs)| >= |BaseQuery| && BooksQuery(fs)[..|BaseQuery|] == BaseQuery
  {
    assert BooksQuery(fs) == BaseQuery + (Clauses(fs) + PageClause);
  }

  /** ... and ends with the page window. */
  lemma QueryEndsWithPage(fs: seq<Filter>)
    ensures |BooksQuery(fs)| >= |PageClause| && BooksQuery(fs)[|BooksQuery(fs)| - |PageClause|..] == PageClause
  {
  }

  /** What every statement `get_books_model` sends looks like. */
  lemma BooksQueryShape(fs: seq<Filter>, limit: Value, offset: Value)
    requires OneMarkerEach(fs)
    ensures var query, params := BooksQuery(fs), Params(fs) + [limit, offset];
            && |query| >= |BaseQuery| && query[..|BaseQuery|] == BaseQuery
            && |query| >= |PageClause| && query[|query| - |PageClause|..] == PageClause
            && |params| >= 2 && params[|params| - 2..] == [limit, offset]
            && Placeholders(query) == |params|
  {
    QueryStartsWithBase(fs);
    QueryEndsWithPage(fs);
    QueryMarkersMatchParams(fs, limit, offset);
    var params := Params(fs) + [limit, offset];
    assert params[|params| - 2..] == [limit, offset];
  }

  /** A condition is present exactly when its argument is truthy; in
      particular a price bound of 0 adds nothing. */
  lemma FilterPresence(search: Option<string>, category: Value, minPrice: Value, maxPrice: Value)
    ensures Filter(CategoryClause, category) in Filters(search, category, minPrice, maxPrice) <==> Truthy(category)
    ensures Filter(MinPriceClause, minPrice) in Filters(search, category, minPrice, maxPrice) <==> Truthy(minPrice)
    ensures Filter(MaxPriceClause, maxPrice) in Filters(search, category, minPrice, maxPrice) <==> Truthy(maxPrice)
    ensures (exists f :: f in Filters(search, category, minPrice, maxPrice) && f.clause == SearchClause) <==> SearchGiven(search)
    ensures SearchGiven(search) ==>
              Filters(search, category, minPrice, maxPrice)[0] == Filter(SearchClause, Str("%" + search.value + "%"))
    ensures |Filters(search, category, minPrice, maxPrice)|
            == (if SearchGiven(search) then 1 else 0) + (if Truthy(category) then 1 else 0)
             + (if Truthy(minPrice) then 1 else 0) + (if Truthy(maxPrice) then 1 else 0)
  {
    var fs := Filters(search, category, minPrice, maxPrice);
    if SearchGiven(search) {
      assert fs[0].clause == SearchClause;
    }
  }

  /** One `if arg: query += clause; params.append(value)` block. */
  method AddFilterIf(query: string, params: seq<Value>, ghost fs: seq<Filter>, given: bool, f: Filter)
    returns (query': string, params': seq<Value>, ghost fs': seq<Filter>)
    requires query == BaseQuery + Clauses(fs) && params == Params(fs)
    ensures fs' == fs + (if given then [f] else [])
    ensures query' == BaseQuery + Clauses(fs') && params' == Params(fs')
  {
    query', params', fs' := query, params, fs;
    if given {
      ClausesSnoc(fs, f);
      query' := query + f.clause;
      params' := params + [f.param];
      fs' := fs + [f];
    } else {
      assert fs + [] == fs;
    }
  }

  /** The `LIKE` pattern `f"%{search}%"`. */
  function SearchPattern(search: Option<string>): Value {
    Str("%" + (if search.Some? then search.value else "") + "%")
  }

  /** `get_books_model`'s statement and parameters, built as the source
      builds them: `query +=` and `params.append` per truthy filter, then
      the page window. */
  method BuildBooksQuery(limit: Value, offset: Value, search: Option<string>,
                         category: Value, minPrice: Value, maxPrice: Value)
    returns (query: string, params: seq<Value>)
    ensures var fs := Filters(search, category, minPrice, maxPrice);
            query == BooksQuery(fs) && params == Params(fs) + [limit, offset]
    ensures Placeholders(query) == |params|
  {
    ghost var fs: seq<Filter> := [];
    query := BaseQuery;
    params := [];
    query, params, fs := AddFilterIf(query, params, fs, SearchGiven(search), Filter(SearchClause, SearchPattern(search)));
    query, params, fs := AddFilterIf(query, params, fs, Truthy(category), Filter(CategoryClause, category));
    query, params, fs := AddFilterIf(query, params, fs, Truthy(minPrice), Filter(MinPriceClause, minPrice));
    query, params, fs := AddFilterIf(query, params, fs, Truthy(maxPrice), Filter(MaxPriceClause, maxPrice));
    assert fs == Filters(search, category, minPrice, maxPrice);
    query := query + PageClause;
    params := params + [limit, offset];
    FiltersOneMarkerEach(search, category, minPrice, maxPrice);
    QueryMarkersMatchParams(fs, limit, offset);
  }
}
