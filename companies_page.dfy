/** The companies page: search and rating filters, the chosen sort applied in place, and
    pagination of twelve companies per page. */
module CompaniesPage {
  import opened Wrappers
  import opened Text
  import opened Lists
  import opened CompaniesRoute

  const PerPage := 12

  // ---- Filters ----

  /** The search test: the lowercased name, or the description when it is set, contains the
      lowercased term. */
  predicate Matches(c: Listed, term: string) {
    || Contains(Lower(c.name), Lower(term))
    || (Truthy(c.description) && Contains(Lower(c.description.value), Lower(term)))
  }

  function MatchesTerm(term: string): Listed -> bool {
    (c: Listed) => Matches(c, term)
  }

  /** `parseFloat` of the rating filter: the options are whole numbers; None stands for NaN. */
  function MinRating(filter: string): Option<nat> {
    if IsDigits(filter) then Some(DigitsValue(filter)) else None
  }

  /** `company.company_rating && parseFloat(company.company_rating) >= minRating`: a rating of 0
      is falsy, and nothing compares as at least NaN. */
  predicate RatedAtLeast(c: Listed, min: Option<nat>) {
    c.rating.num != 0 && min.Some? && c.rating.num >= min.value * c.rating.den
  }

  function RatedAtLeastTest(min: Option<nat>): Listed -> bool {
    (c: Listed) => RatedAtLeast(c, min)
  }

  /** The companies both filters keep, in their original order. */
  function Selected(companies: seq<Listed>, searchTerm: string, ratingFilter: string): (r: seq<Listed>)
    ensures multiset(r) <= multiset(companies)
    ensures forall c :: c in r <==>
      && c in companies
      && (searchTerm == "" || Matches(c, searchTerm))
      && (ratingFilter == "" || RatedAtLeast(c, MinRating(ratingFilter)))
  {
    var searched := if searchTerm == "" then companies else Filter(companies, MatchesTerm(searchTerm));
    var rated := if ratingFilter == "" then searched else Filter(searched, RatedAtLeastTest(MinRating(ratingFilter)));
    assert multiset(rated) <= multiset(searched) <= multiset(companies);
    rated
  }

  // ---- Sort orders ----

  /** `b.rating <= a.rating` on exact ratios. */
  predicate RatingAtLeast(a: Ratio, b: Ratio) {
    a.num * b.den >= b.num * a.den
  }

  /** The sort the select box names; any value other than the three named ones sorts by name. */
  datatype Order = ByName | ByRating | ByJobs | ByNewest

  function OrderOf(sortBy: string): Order {
    if sortBy == "rating" then ByRating
    else if sortBy == "jobs" then ByJobs
    else if sortBy == "newest" then ByNewest
    else ByName
  }

  /** The comparator of the order returns 0 or less for (a, b): by rating, highest first; by
      active jobs, most first; by a creation date the listing never carries, so every pair
      compares equal; by name. */
  predicate Before(order: Order, a: Listed, b: Listed) {
    match order
    case ByRating => RatingAtLeast(a.rating, b.rating)
    case ByJobs => a.activeJobs >= b.activeJobs
    case ByNewest => true
    case ByName => LexLe(CharCodes(a.name), CharCodes(b.name))
  }

  lemma MulMonotone(x: int, y: int, k: int)
    requires x >= y && k >= 1
    ensures x * k >= y * k
  {
  }

  lemma MulCancel(x: int, y: int, k: int)
    requires x * k >= y * k && k >= 1
    ensures x >= y
  {
    if x < y {
      MulMonotone(y, x + 1, k);
    }
  }

  lemma MulRegroup(x: int, y: int, z: int)
    ensures (x * y) * z == (x * z) * y
  {
  }

  lemma {:induction false} RatingTransitive(a: Ratio, b: Ratio, c: Ratio)
    requires RatingAtLeast(a, b) && RatingAtLeast(b, c)
    ensures RatingAtLeast(a, c)
  {
    MulMonotone(a.num * b.den, b.num * a.den, c.den);
    MulMonotone(b.num * c.den, c.num * b.den, a.den);
    MulRegroup(a.num, b.den, c.den);
    MulRegroup(b.num, a.den, c.den);
    MulRegroup(c.num, b.den, a.den);
    MulCancel(a.num * c.den, c.num * a.den, b.den);
  }

  /** Every sort order compares any two companies. */
  lemma BeforeTotal(sortBy: Order, a: Listed, b: Listed)
    ensures Before(sortBy, a, b) || Before(sortBy, b, a)
  {
    LexTotal(CharCodes(a.name), CharCodes(b.name));
  }

  /** Every sort order is transitive. */
  lemma BeforeTransitive(sortBy: Order, a: Listed, b: Listed, c: Listed)
    requires Before(sortBy, a, b) && Before(sortBy, b, c)
    ensures Before(sortBy, a, c)
  {
    if sortBy == ByRating {
      RatingTransitive(a.rating, b.rating, c.rating);
    } else if sortBy == ByName {
      LexTrans(CharCodes(a.name), CharCodes(b.name), CharCodes(c.name));
    }
  }

  predicate SortedFor(order: Order, s: seq<Listed>) {
    forall i, j :: 0 <= i < j < |s| ==> Before(order, s[i], s[j])
  }

  function Comparator(order: Order): (Listed, Listed) -> bool {
    (a: Listed, b: Listed) => Before(order, a, b)
  }

  /** Every order compares any two companies, transitively. */
  lemma ComparatorIsTotalOrder(order: Order)
    ensures TotalPreorder(Comparator(order))
  {
    forall a, b ensures Comparator(order)(a, b) || Comparator(order)(b, a) {
      BeforeTotal(order, a, b);
    }
    forall a, b, c | Comparator(order)(a, b) && Comparator(order)(b, c) ensures Comparator(order)(a, c) {
      BeforeTransitive(order, a, b, c);
    }
  }

  ghost predicate TotalPreorder<T(!new)>(le: (T, T) -> bool) {
    && (forall x, y :: le(x, y) || le(y, x))
    && (forall x, y, z :: le(x, y) && le(y, z) ==> le(x, z))
  }

  predicate SortedBy2<T>(le: (T, T) -> bool, s: seq<T>) {
    forall i, j :: 0 <= i < j < |s| ==> le(s[i], s[j])
  }

  /** `filtered.sort(comparator)`: an insertion sort in place. When the comparator finds every
      pair equal the array keeps its order, as JavaScript's stable sort does. */
  method SortInPlace<T(!new)>(a: array<T>, le: (T, T) -> bool)
    requires TotalPreorder(le)
    modifies a
    ensures SortedBy2(le, a[..])
    ensures multiset(a[..]) == multiset(old(a[..]))
    ensures (forall x, y :: le(x, y)) ==> a[..] == old(a[..])
  {
    var i := 0;
    while i < a.Length
      invariant 0 <= i <= a.Length
      invariant SortedBy2(le, a[..i])
      invariant multiset(a[..]) == multiset(old(a[..]))
      invariant (forall x, y :: le(x, y)) ==> a[..] == old(a[..])
    {
      InsertAt(a, i, le);
      i := i + 1;
    }
    assert a[..a.Length] == a[..];
  }

  /** Moves `a[i]` left past every element it must follow, so that `a[..i + 1]` is sorted. */
  method InsertAt<T(!new)>(a: array<T>, i: nat, le: (T, T) -> bool)
    requires TotalPreorder(le)
    requires i < a.Length
    requires SortedBy2(le, a[..i])
    modifies a
    ensures SortedBy2(le, a[..i + 1])
    ensures multiset(a[..]) == multiset(old(a[..]))
    ensures (forall x, y :: le(x, y)) ==> a[..] == old(a[..])
  {
    var j := i;
    while j > 0 && !le(a[j - 1], a[j])
      invariant 0 <= j <= i
      invariant multiset(a[..]) == multiset(old(a[..]))
      invariant SortedExcept(le, a[..], i, j)
      invariant (forall x, y :: le(x, y)) ==> a[..] == old(a[..])
    {
      ghost var before := a[..];
      SwapDown(a, j);
      SwapKeepsOrder(before, a[..], i, j, le);
      j := j - 1;
    }
    InsertedSorted(a[..], i, j, le);
  }

  /** `a[..i + 1]` is in order except that `a[j]` may be out of place on its left; it is in
      order with everything on its right. */
  ghost predicate SortedExcept<T>(le: (T, T) -> bool, s: seq<T>, i: nat, j: nat) {
    && i < |s| && j <= i
    && (forall p, q :: 0 <= p < q <= i && p != j && q != j ==> le(s[p], s[q]))
    && (forall q :: j < q <= i ==> le(s[j], s[q]))
  }

  method SwapDown<T>(a: array<T>, j: nat)
    requires 0 < j < a.Length
    modifies a
    ensures a[..] == old(a[..])[j - 1 := old(a[j])][j := old(a[j - 1])]
    ensures multiset(a[..]) == multiset(old(a[..]))
  {
    a[j - 1], a[j] := a[j], a[j - 1];
  }

  lemma SwapKeepsOrder<T(!new)>(s0: seq<T>, s: seq<T>, i: nat, j: nat, le: (T, T) -> bool)
    requires TotalPreorder(le)
    requires 0 < j <= i < |s0| && SortedExcept(le, s0, i, j) && !le(s0[j - 1], s0[j])
    requires s == s0[j - 1 := s0[j]][j := s0[j - 1]]
    ensures SortedExcept(le, s, i, j - 1)
  {
  }

  lemma InsertedSorted<T(!new)>(s: seq<T>, i: nat, j: nat, le: (T, T) -> bool)
    requires TotalPreorder(le)
    requires SortedExcept(le, s, i, j)
    requires j == 0 || le(s[j - 1], s[j])
    ensures SortedBy2(le, s[..i + 1])
  {
  }

  /** `filtered.sort(comparator)` on the page's own copy of the selected companies: the result is
      sorted by the order and holds the same companies; "newest" leaves it as it was. */
  method SortedCopy(list: seq<Listed>, order: Order) returns (r: seq<Listed>)
    ensures SortedFor(order, r)
    ensures multiset(r) == multiset(list)
    ensures order == ByNewest ==> r == list
  {
    var a := new Listed[|list|](k requires 0 <= k < |list| => list[k]);
    assert a[..] == list;
    ComparatorIsTotalOrder(order);
    SortInPlace(a, Comparator(order));
    r := a[..];
  }

  // ---- Pagination ----

  /** `filtered.slice((page - 1) * 12, page * 12)`: page `page` shows at most twelve companies, in
      their filtered order, and exactly twelve unless it is the last. */
  function PageOf(filtered: seq<Listed>, page: int): (r: seq<Listed>)
    ensures 1 <= page ==> |r| <= PerPage
    ensures 1 <= page ==> forall k :: 0 <= k < |r| ==>
      (page - 1) * PerPage + k < |filtered| && r[k] == filtered[(page - 1) * PerPage + k]
    ensures 1 <= page && (page - 1) * PerPage < |filtered| ==>
      |r| == if page * PerPage <= |filtered| then PerPage else |filtered| - (page - 1) * PerPage
  {
    JsSlice(filtered, (page - 1) * PerPage, page * PerPage)
  }

  /** `Math.ceil(n / 12)`. */
  function TotalPages(n: nat): (r: nat)
    ensures r * PerPage >= n
    ensures n > 0 ==> (r - 1) * PerPage < n
    ensures r * PerPage < n + PerPage
  {
    (n + PerPage - 1) / PerPage
  }

  /** Each filtered company lies on exactly one of the pages 1..TotalPages. */
  lemma OnExactlyOnePage(filtered: seq<Listed>, k: nat)
    requires k < |filtered|
    ensures var page := k / PerPage + 1;
      && 1 <= page <= TotalPages(|filtered|)
      && PageOf(filtered, page)[k % PerPage] == filtered[k]
      && forall other :: 1 <= other && other != page ==> !((other - 1) * PerPage <= k < other * PerPage)
  {
    var page := k / PerPage + 1;
    assert (page - 1) * PerPage + k % PerPage == k;
  }

  // ---- Page state ----

  class CompaniesView {
    var companies: seq<Listed>
    var filtered: seq<Listed>
    var searchTerm: string
    var ratingFilter: string
    var sortBy: string
    var currentPage: int

    /** The state after the listing has loaded. */
    constructor(companies: seq<Listed>)
      ensures this.companies == companies && filtered == []
      ensures searchTerm == "" && ratingFilter == "" && sortBy == "name" && currentPage == 1
    {
      this.companies := companies;
      filtered := [];
      searchTerm := "";
      ratingFilter := "";
      sortBy := "name";
      currentPage := 1;
    }

    /** `applyFilters`: the selected companies, sorted by the chosen order. */
    method ApplyFilters()
      modifies this
      ensures SortedFor(OrderOf(sortBy), filtered)
      ensures multiset(filtered) == multiset(Selected(companies, searchTerm, ratingFilter))
      ensures OrderOf(sortBy) == ByNewest ==> filtered == Selected(companies, searchTerm, ratingFilter)
      ensures companies == old(companies) && searchTerm == old(searchTerm)
      ensures ratingFilter == old(ratingFilter) && sortBy == old(sortBy) && currentPage == old(currentPage)
    {
      var list := companies;
      if searchTerm != "" {
        list := Filter(list, MatchesTerm(searchTerm));
      }
      if ratingFilter != "" {
        list := Filter(list, RatedAtLeastTest(MinRating(ratingFilter)));
      }
      assert list == Selected(companies, searchTerm, ratingFilter);
      filtered := SortedCopy(list, OrderOf(sortBy));
    }

    /** `clearFilters`. */
    method ClearFilters()
      modifies this
      ensures searchTerm == "" && ratingFilter == "" && sortBy == "name"
      ensures companies == old(companies) && filtered == old(filtered) && currentPage == old(currentPage)
    {
      searchTerm := "";
      ratingFilter := "";
      sortBy := "name";
    }

    /** `paginate(page)`. */
    method Paginate(page: int)
      modifies this
      ensures currentPage == page
      ensures companies == old(companies) && filtered == old(filtered)
      ensures searchTerm == old(searchTerm) && ratingFilter == old(ratingFilter) && sortBy == old(sortBy)
    {
      currentPage := page;
    }

    function CurrentCompanies(): seq<Listed>
      reads this
    {
      PageOf(filtered, currentPage)
    }
  }
}
