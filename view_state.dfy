/**
 * The product list of the web page: the stock badge of each row, the status
 * filter, the text search, the sort by a column and the three-state sort
 * toggle of the column headers. `applyFiltersAndSort` is the pipeline
 * status filter -> search -> sort; its result is what the table shows.
 */
module ViewState {
  import opened Common
  import opened Seqs
  import opened StableSort

  /** A product as the list endpoint hands it to the page; stock and safety stock may be
      missing (`undefined`/`null`). */
  datatype ProductRow = ProductRow(id: int, sku: string, name: string, price: int,
                                   stock: Option<int>, safetyStock: Option<int>)

  /** `product.stock || 0` */
  function StockOf(p: ProductRow): int { p.stock.GetOr(0) }

  /** `product.safety_stock || 0` */
  function SafetyOf(p: ProductRow): int { p.safetyStock.GetOr(0) }

  datatype StockStatus = OutOfStock | LowStock | InStock

  /** The badge of a row: out of stock at 0, low at or below the safety stock, in stock
      otherwise. Every row gets exactly one badge. */
  function Classify(p: ProductRow): (s: StockStatus)
    ensures s == OutOfStock <==> StockOf(p) == 0
    ensures s == LowStock <==> StockOf(p) != 0 && StockOf(p) <= SafetyOf(p)
    ensures s == InStock <==> StockOf(p) != 0 && StockOf(p) > SafetyOf(p)
  {
    if StockOf(p) == 0 then OutOfStock
    else if StockOf(p) <= SafetyOf(p) then LowStock
    else InStock
  }

  /** The badge's colour class and text. */
  function Badge(s: StockStatus): (string, string) {
    match s
    case OutOfStock => ("bg-danger", "Out of Stock")
    case LowStock => ("bg-warning", "Low Stock")
    case InStock => ("bg-success", "In Stock")
  }

  // ---------------------------------------------------------------------------
  // Status filter

  /** The selected filter: an empty selection counts as 'all'. */
  function EffectiveFilter(selected: string): string {
    if selected == "" then "all" else selected
  }

  /** Whether the status filter keeps a row; a value the page does not know keeps it. */
  predicate FilterKeeps(filter: string, p: ProductRow) {
    if filter == "in-stock" then StockOf(p) > SafetyOf(p)
    else if filter == "low-stock" then StockOf(p) > 0 && StockOf(p) <= SafetyOf(p)
    else if filter == "out-of-stock" then StockOf(p) == 0
    else true
  }

  function Keeper(filter: string): ProductRow -> bool {
    p => FilterKeeps(filter, p)
  }

  function StatusFiltered(products: seq<ProductRow>, selected: string): (r: seq<ProductRow>)
    ensures r == Filter(Keeper(EffectiveFilter(selected)), products)
    ensures IsSubsequence(r, products)
    ensures forall p :: p in r <==> p in products && FilterKeeps(EffectiveFilter(selected), p)
  {
    var filter := EffectiveFilter(selected);
    if filter == "all" then
      SubsequenceReflexive(products);
      FilterAll(Keeper(filter), products);
      products
    else
      FilterIsSubsequence(Keeper(filter), products);
      forall p ensures p in Filter(Keeper(filter), products) <==> p in products && FilterKeeps(filter, p) {
        FilterMembership(Keeper(filter), products, p);
      }
      Filter(Keeper(filter), products)
  }

  /** For rows whose stock and safety stock are not negative, each status filter keeps
      exactly the rows with the matching badge. */
  lemma FilterMatchesBadge(p: ProductRow)
    requires StockOf(p) >= 0 && SafetyOf(p) >= 0
    ensures FilterKeeps("in-stock", p) <==> Classify(p) == InStock
    ensures FilterKeeps("low-stock", p) <==> Classify(p) == LowStock
    ensures FilterKeeps("out-of-stock", p) <==> Classify(p) == OutOfStock
  {
  }

  /** A negative stock (which product creation accepts) shows the Low Stock badge, yet no
      status filter other than 'all' keeps the row. */
  lemma NegativeStockMatchesNoFilter(p: ProductRow)
    requires StockOf(p) < 0 && SafetyOf(p) >= 0
    ensures Classify(p) == LowStock
    ensures !FilterKeeps("in-stock", p) && !FilterKeeps("low-stock", p) && !FilterKeeps("out-of-stock", p)
  {
  }

  /** With a negative safety stock, a row at 0 is kept by both 'in-stock' and 'out-of-stock'. */
  lemma NegativeSafetyMatchesTwoFilters(p: ProductRow)
    requires StockOf(p) == 0 && SafetyOf(p) < 0
    ensures Classify(p) == OutOfStock
    ensures FilterKeeps("in-stock", p) && FilterKeeps("out-of-stock", p)
  {
  }

  // ---------------------------------------------------------------------------
  // Search

  /** `toLowerCase` on the ASCII letters. */
  function LowerChar(c: char): char {
    if 'A' <= c <= 'Z' then (c as int - 'A' as int + 'a' as int) as char else c
  }

  function Lower(s: string): (r: string)
    ensures |r| == |s| && forall i :: 0 <= i < |s| ==> r[i] == LowerChar(s[i])
  {
    if s == [] then [] else [LowerChar(s[0])] + Lower(s[1..])
  }

  /** Lowering leaves no upper-case ASCII letter, and lowering twice changes nothing more. */
  lemma LowerIdempotent(s: string)
    ensures forall i :: 0 <= i < |s| ==> !('A' <= Lower(s)[i] <= 'Z')
    ensures Lower(Lower(s)) == Lower(s)
  {
  }

  /** `s.includes(t)`: `t` occurs in `s` starting at the front or further on. */
  predicate Contains(s: string, t: string)
    decreases |s|
  {
    (|t| <= |s| && s[..|t|] == t) || (s != [] && Contains(s[1..], t))
  }

  /** `t` occurs in `s` at index `i`. */
  predicate OccursAt(s: string, t: string, i: int) {
    0 <= i <= |s| - |t| && s[i..i + |t|] == t
  }

  /** `Contains` means some window of `s` is `t`; the empty text occurs everywhere. */
  lemma {:induction false} ContainsAt(s: string, t: string)
    ensures Contains(s, t) <==> exists i :: OccursAt(s, t, i)
    ensures Contains(s, "")
    decreases |s|
  {
    assert s[..0] == "";
    if |t| <= |s| && s[..|t|] == t {
      assert OccursAt(s, t, 0);
    }
    if s != [] {
      ContainsAt(s[1..], t);
      if Contains(s[1..], t) {
        var j :| OccursAt(s[1..], t, j);
        assert s[j + 1..j + 1 + |t|] == s[1..][j..j + |t|];
        assert OccursAt(s, t, j + 1);
      }
      if exists i :: OccursAt(s, t, i) {
        var i :| OccursAt(s, t, i);
        if i > 0 {
          assert s[1..][i - 1..i - 1 + |t|] == s[i..i + |t|];
          assert OccursAt(s[1..], t, i - 1);
        }
      }
    }
  }

  /** Whether a row matches the lowered search term, by SKU or by name. */
  predicate Matches(term: string, p: ProductRow) {
    Contains(Lower(p.sku), term) || Contains(Lower(p.name), term)
  }

  function Matcher(term: string): ProductRow -> bool {
    p => Matches(term, p)
  }

  /** The search: an empty box keeps every row; otherwise exactly the rows whose lowered
      SKU or name contains the lowered text. */
  function Searched(rows: seq<ProductRow>, searchInput: string): (r: seq<ProductRow>)
    ensures r == Filter(Matcher(Lower(searchInput)), rows)
    ensures IsSubsequence(r, rows)
    ensures searchInput == "" ==> r == rows
    ensures forall p :: p in r <==> p in rows && (searchInput == "" || Matches(Lower(searchInput), p))
  {
    var term := Lower(searchInput);
    if term == "" then
      SubsequenceReflexive(rows);
      forall i | 0 <= i < |rows| ensures Matcher(term)(rows[i]) {
        ContainsAt(Lower(rows[i].sku), term);
      }
      FilterAll(Matcher(term), rows);
      rows
    else
      FilterIsSubsequence(Matcher(term), rows);
      forall p ensures p in Filter(Matcher(term), rows) <==> p in rows && Matches(term, p) {
        FilterMembership(Matcher(term), rows, p);
      }
      Filter(Matcher(term), rows)
  }

  // ---------------------------------------------------------------------------
  // Sorting

  datatype SortField = Id | Sku | Name | Price | Stock | SafetyStock

  datatype Direction = Asc | Desc | Default

  /** `currentSort`: the sorted column (if any) and the direction. */
  datatype SortState = SortState(field: Option<SortField>, direction: Direction)

  /** The state the page starts in: no column, 'asc'. */
  const InitialSort := SortState(None, Asc)

  /** A column is only ever sorted in a real direction. */
  predicate SortValid(s: SortState) {
    s.field.Some? ==> s.direction != Default
  }

  /** `sortProducts(field)`: the same column goes asc -> desc -> unsorted; another column
      (or none) starts at asc. The toggle keeps the state valid; a column in the 'default'
      direction, which no valid state holds, is left as it is. */
  function Toggle(s: SortState, f: SortField): (r: SortState)
    ensures SortValid(s) ==> SortValid(r)
    ensures s.field != Some(f) ==> r == SortState(Some(f), Asc)
    ensures s == SortState(Some(f), Asc) ==> r == SortState(Some(f), Desc)
    ensures s == SortState(Some(f), Desc) ==> r == SortState(None, Default)
    ensures s.field == Some(f) && s.direction == Default ==> r == s
  {
    if s.field == Some(f) then
      if s.direction == Asc then s.(direction := Desc)
      else if s.direction == Desc then SortState(None, Default)
      else s
    else SortState(Some(f), Asc)
  }

  /** Clicking one column three times from any state where it is not sorted leaves the list
      unsorted; a fourth click starts over at asc. */
  lemma ToggleThreeTimes(s: SortState, f: SortField)
    requires s.field != Some(f)
    ensures Toggle(Toggle(Toggle(s, f), f), f) == SortState(None, Default)
    ensures Toggle(Toggle(Toggle(Toggle(s, f), f), f), f) == SortState(Some(f), Asc)
  {
  }

  /** `String(v || '')` for a number: 0 gives the empty text. Lower-casing digits
      changes nothing. */
  function NumberText(n: int): string {
    if n == 0 then "" else IntToString(n)
  }

  /** The comparator's key: price as a number, every other column as lowered text. */
  function KeyOf(f: SortField, p: ProductRow): Key {
    match f
    case Price => Num(p.price)
    case Id => Str(NumberText(p.id))
    case Sku => Str(Lower(p.sku))
    case Name => Str(Lower(p.name))
    case Stock => Str(NumberText(StockOf(p)))
    case SafetyStock => Str(NumberText(SafetyOf(p)))
  }

  function Keyer(f: SortField): ProductRow -> Key {
    p => KeyOf(f, p)
  }

  /** Whether the state sorts at all: a column and a direction other than 'default'. */
  predicate Sorting(s: SortState) {
    s.field.Some? && s.direction != Default
  }

  /** The (stable) sort step of the pipeline. */
  function Arranged(rows: seq<ProductRow>, s: SortState): seq<ProductRow> {
    if Sorting(s) then SortBy(Keyer(s.field.value), s.direction == Desc, rows) else rows
  }

  /** What `applyFiltersAndSort` leaves in `filteredProducts`. */
  function Visible(products: seq<ProductRow>, selected: string, searchInput: string, s: SortState): seq<ProductRow> {
    Arranged(Searched(StatusFiltered(products, selected), searchInput), s)
  }

  /** The filter steps of the pipeline: a subsequence of the products holding exactly the
      rows both filters keep. */
  lemma FilteredRows(products: seq<ProductRow>, selected: string, searchInput: string)
    ensures var f := Searched(StatusFiltered(products, selected), searchInput);
      && f == Filter(Matcher(Lower(searchInput)), Filter(Keeper(EffectiveFilter(selected)), products))
      && IsSubsequence(f, products)
      && forall p :: p in f <==> (p in products && FilterKeeps(EffectiveFilter(selected), p)
                                  && (searchInput == "" || Matches(Lower(searchInput), p)))
  {
    var g := StatusFiltered(products, selected);
    SubsequenceTransitive(Searched(g, searchInput), g, products);
  }

  /** The rows shown: a permutation of the filtered rows, so exactly the rows both filters
      keep, each as often as in the input. Without a sort they keep the input order; with
      one they are ordered by the column's key and rows with equal keys keep their order. */
  lemma VisibleSpec(products: seq<ProductRow>, selected: string, searchInput: string, s: SortState)
    ensures var f := Searched(StatusFiltered(products, selected), searchInput);
            var v := Visible(products, selected, searchInput, s);
      && multiset(v) == multiset(f)
      && (forall p :: p in v <==> (p in products && FilterKeeps(EffectiveFilter(selected), p)
                                   && (searchInput == "" || Matches(Lower(searchInput), p))))
      && (!Sorting(s) ==> v == f && IsSubsequence(v, products))
      && (Sorting(s) ==>
            && Sorted(Keyer(s.field.value), s.direction == Desc, v)
            && forall k :: WithKey(Keyer(s.field.value), k, v) == WithKey(Keyer(s.field.value), k, f))
  {
    var f := Searched(StatusFiltered(products, selected), searchInput);
    var v := Visible(products, selected, searchInput, s);
    FilteredRows(products, selected, searchInput);
    if Sorting(s) {
      var key := Keyer(s.field.value);
      var desc := s.direction == Desc;
      SortByPermutation(key, desc, f);
      SortBySorted(key, desc, f);
      forall k ensures WithKey(key, k, v) == WithKey(key, k, f) {
        SortByStable(key, desc, f, k);
      }
    }
    forall p ensures p in v <==> p in f {
      assert p in v <==> p in multiset(v);
    }
  }

  /** Columns other than price compare as text: by stock, 10 sorts before 9. */
  lemma StockSortsAsText(a: ProductRow, b: ProductRow)
    requires a.stock == Some(9) && b.stock == Some(10)
    ensures Arranged([a, b], SortState(Some(Stock), Asc)) == [b, a]
  {
    var key := Keyer(Stock);
    assert NatToString(10) == NatToString(1) + [Digit(0)];
    assert key(b) == Str("10") && key(a) == Str("9");
    assert Before(key, false, b, a);
    assert [a, b][1..] == [b];
    assert SortBy(key, false, [b]) == [b];
    assert Insert(key, false, a, [b]) == [b] + Insert(key, false, a, []);
  }

  // ---------------------------------------------------------------------------
  // The page state

  class ProductsPage {
    var products: seq<ProductRow>
    var filteredProducts: seq<ProductRow>
    var currentSort: SortState

    ghost predicate Valid()
      reads this
    {
      SortValid(currentSort)
    }

    constructor ()
      ensures Valid() && products == [] && filteredProducts == [] && currentSort == InitialSort
    {
      products := [];
      filteredProducts := [];
      currentSort := InitialSort;
    }

    /** `applyFiltersAndSort`: filter a copy of the products by status, then by the search
        box, then sort it, and show the result. */
    method ApplyFiltersAndSort(selected: string, searchInput: string)
      modifies this
      ensures filteredProducts == Visible(products, selected, searchInput, currentSort)
      ensures products == old(products) && currentSort == old(currentSort)
    {
      var filtered := products;
      var filter := EffectiveFilter(selected);
      if filter != "all" {
        filtered := Filter(Keeper(filter), filtered);
      }
      var term := Lower(searchInput);
      if term != "" {
        filtered := Filter(Matcher(term), filtered);
      }
      if currentSort.field.Some? && currentSort.direction != Default {
        filtered := SortBy(Keyer(currentSort.field.value), currentSort.direction == Desc, filtered);
      }
      filteredProducts := filtered;
    }

    /** `loadProducts`: take the fetched list and show it through the current filters. */
    method LoadProducts(data: seq<ProductRow>, selected: string, searchInput: string)
      modifies this
      ensures products == data && currentSort == old(currentSort)
      ensures filteredProducts == Visible(data, selected, searchInput, currentSort)
    {
      products := data;
      filteredProducts := products;
      ApplyFiltersAndSort(selected, searchInput);
    }

    /** `sortProducts`: toggle the column, then show the list again. */
    method SortProducts(field: SortField, selected: string, searchInput: string)
      modifies this
      ensures currentSort == Toggle(old(currentSort), field)
      ensures old(Valid()) ==> Valid()
      ensures products == old(products)
      ensures filteredProducts == Visible(products, selected, searchInput, currentSort)
    {
      if currentSort.field == Some(field) {
        if currentSort.direction == Asc {
          currentSort := currentSort.(direction := Desc);
        } else if currentSort.direction == Desc {
          currentSort := SortState(None, Default);
        }
      } else {
        currentSort := SortState(Some(field), Asc);
      }
      ApplyFiltersAndSort(selected, searchInput);
    }
  }
}
