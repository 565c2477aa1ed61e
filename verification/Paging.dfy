/** Pages of operations (database.go, handler_operation.go): filter, sort, limit, next offset. */
module Paging {
  import opened Basics
  import opened Sequences
  import opened DigestStore
  import opened Databases
  import opened BlockSessions
  import opened Recovery
  import opened Queries
  import opened Offsets

  const MAX_LIMIT := 50

  datatype Query = AllOperations | ByAddress(address: string) | ByHeight(height: Height)

  datatype After = FromStart | AfterKey(height: Height, index: nat) | AfterIndex(index: nat)

  /** The filter document sent to the server. */
  datatype RowFilter = RowFilter(query: Query, after: After, reverse: bool)

  function Index(r: Row): nat { if r.body.OperationBody? then r.body.index else 0 }

  predicate KeyLess(h1: Height, i1: nat, h2: Height, i2: nat) { h1 < h2 || (h1 == h2 && i1 < i2) }

  predicate SameKey(a: Row, b: Row) { a.height == b.height && Index(a) == Index(b) }

  predicate Asked(q: Query, r: Row) {
    r.body.OperationBody? &&
    match q
    case AllOperations => true
    case ByAddress(a) => a in r.body.addresses
    case ByHeight(h) => r.height == h
  }

  predicate Beyond(after: After, reverse: bool, r: Row) {
    match after
    case FromStart => true
    case AfterKey(h, i) => if reverse then KeyLess(r.height, Index(r), h, i) else KeyLess(h, i, r.height, Index(r))
    case AfterIndex(i) => if reverse then Index(r) < i else Index(r) > i
  }

  function Matches(f: RowFilter): Row -> bool {
    (r: Row) => Asked(f.query, r) && Beyond(f.after, f.reverse, r)
  }

  function AskedFor(q: Query): Row -> bool { (r: Row) => Asked(q, r) }

  function PastOf(x: Row, reverse: bool): Row -> bool {
    (r: Row) => Beyond(AfterKey(x.height, Index(x)), reverse, r)
  }

  /** By height and index, ascending or descending. */
  function RowOrder(reverse: bool): (Row, Row) -> bool {
    if reverse then (a: Row, b: Row) => !KeyLess(a.height, Index(a), b.height, Index(b))
    else (a: Row, b: Row) => !KeyLess(b.height, Index(b), a.height, Index(a))
  }

  /** The filter for an offset string; an offset that cannot be parsed is an error. */
  function BuildFilter(q: Query, offset: string, reverse: bool): Result<RowFilter> {
    if offset == "" then Ok(RowFilter(q, FromStart, reverse))
    else if q.ByHeight? then
      match ParseUint(offset)
      case None => Err(BadOffset)
      case Some(i) => Ok(RowFilter(q, AfterIndex(i), reverse))
    else
      var key :- ParseOffset(offset);
      Ok(RowFilter(q, AfterKey(key.0, key.1), reverse))
  }

  function NextOffset(q: Query, last: Row): string {
    if q.ByHeight? then FormatUint(Index(last)) else BuildOffset(last.height, Index(last))
  }

  function Limited<T>(s: seq<T>, limit: int): seq<T> {
    var n := if limit <= 0 then |s| else if limit > MAX_LIMIT then MAX_LIMIT else limit;
    if n < |s| then s[..n] else s
  }

  /** Everything a filter selects, in order. */
  function Selected(rows: seq<Row>, f: RowFilter): seq<Row> {
    Sort(Filter(rows, Matches(f)), RowOrder(f.reverse))
  }

  /** `Operations`: one page. */
  function Page(rows: seq<Row>, f: RowFilter, limit: int): seq<Row> { Limited(Selected(rows, f), limit) }

  /** All matching operations, in (height, index) order or its reverse. */
  function Everything(rows: seq<Row>, q: Query, reverse: bool): seq<Row> {
    Sort(Filter(rows, AskedFor(q)), RowOrder(reverse))
  }

  ghost predicate UniqueKeys(rows: seq<Row>) {
    forall i, j :: 0 <= i < j < |rows| ==> !SameKey(rows[i], rows[j])
  }

  /** Heights and indexes fit their Go types. */
  ghost predicate InRange(rows: seq<Row>) {
    forall r :: r in rows ==> MIN_INT64 <= r.height <= MAX_INT64 && Index(r) <= MAX_UINT64
  }

  // ----- What is selected, and in which order -----

  /** A query asks for all operations, those with an address, or those at a height. */
  lemma AskedMeaning(q: Query, r: Row)
    ensures AskedFor(q)(r) <==>
              r.body.OperationBody? && match q
              case AllOperations => true
              case ByAddress(a) => a in r.body.addresses
              case ByHeight(h) => r.height == h
  {
  }

  /** A filter goes on strictly past its offset, upwards or downwards. */
  lemma MatchesMeaning(f: RowFilter, r: Row)
    ensures Matches(f)(r) <==>
              && AskedFor(f.query)(r)
              && match f.after
                 case FromStart => true
                 case AfterKey(h, i) =>
                   if f.reverse then r.height < h || (r.height == h && r.body.index < i)
                   else r.height > h || (r.height == h && r.body.index > i)
                 case AfterIndex(i) => if f.reverse then r.body.index < i else r.body.index > i
  {
  }

  /** An offset is refused exactly when it is there and cannot be parsed: as an index for the
      operations of a height, as height and index otherwise. */
  lemma FilterMeaning(q: Query, offset: string, reverse: bool)
    ensures BuildFilter(q, offset, reverse).Ok? <==>
              offset == "" || if q.ByHeight? then ParseUint(offset).Some? else ParseOffset(offset).Ok?
    ensures BuildFilter(q, offset, reverse).Ok? ==>
              var f := BuildFilter(q, offset, reverse).value;
              && f.query == q && f.reverse == reverse
              && (f.after.FromStart? <==> offset == "")
              && (offset != "" && q.ByHeight? ==> f.after == AfterIndex(ParseUint(offset).value))
              && (offset != "" && !q.ByHeight? ==> f.after == AfterKey(ParseOffset(offset).value.0, ParseOffset(offset).value.1))
  {
  }

  /** Operations in the order of height and then index, or its reverse. */
  ghost predicate Ordered(a: Row, b: Row, reverse: bool) {
    && a.body.OperationBody? && b.body.OperationBody?
    && if reverse then a.height > b.height || (a.height == b.height && a.body.index >= b.body.index)
       else a.height < b.height || (a.height == b.height && a.body.index <= b.body.index)
  }

  ghost predicate InOrder(rows: seq<Row>, reverse: bool) {
    forall i, j :: 0 <= i < j < |rows| ==> Ordered(rows[i], rows[j], reverse)
  }

  lemma SortedInOrder(rows: seq<Row>, reverse: bool)
    requires SortedBy(rows, RowOrder(reverse)) && forall r :: r in rows ==> r.body.OperationBody?
    ensures InOrder(rows, reverse)
  {
    forall i, j | 0 <= i < j < |rows| ensures Ordered(rows[i], rows[j], reverse) {
      assert RowOrder(reverse)(rows[i], rows[j]) && rows[i] in rows && rows[j] in rows;
    }
  }

  /** What a query returns: every row it asks for as often as it is there, in order. */
  lemma EverythingMeaning(rows: seq<Row>, q: Query, reverse: bool)
    ensures forall r :: multiset(Everything(rows, q, reverse))[r] == if AskedFor(q)(r) then multiset(rows)[r] else 0
    ensures InOrder(Everything(rows, q, reverse), reverse)
  {
    SortedRows(Filter(rows, AskedFor(q)), reverse, rows, AskedFor(q));
  }

  /** What a filter selects. */
  lemma SelectedMeaning(rows: seq<Row>, f: RowFilter)
    ensures forall r :: multiset(Selected(rows, f))[r] == if Matches(f)(r) then multiset(rows)[r] else 0
    ensures InOrder(Selected(rows, f), f.reverse) && |Selected(rows, f)| == |Filter(rows, Matches(f))|
  {
    SortedRows(Filter(rows, Matches(f)), f.reverse, rows, Matches(f));
  }

  lemma SortedRows(found: seq<Row>, reverse: bool, rows: seq<Row>, p: Row -> bool)
    requires found == Filter(rows, p) && forall r :: p(r) ==> r.body.OperationBody?
    ensures forall r :: multiset(Sort(found, RowOrder(reverse)))[r] == if p(r) then multiset(rows)[r] else 0
    ensures InOrder(Sort(found, RowOrder(reverse)), reverse) && |Sort(found, RowOrder(reverse))| == |found|
  {
    RowOrderTotal(reverse);
    SortSorted(found, RowOrder(reverse));
    SortMultiset(found, RowOrder(reverse));
    SameElements(Sort(found, RowOrder(reverse)), found);
    FilterMembers(rows, p);
    SortedInOrder(Sort(found, RowOrder(reverse)), reverse);
    hide Sort, Filter, RowOrder, InOrder;
    forall r ensures multiset(Sort(found, RowOrder(reverse)))[r] == if p(r) then multiset(rows)[r] else 0 {
      FilterMultiset(rows, p, r);
    }
  }

  // ----- Unique keys stay unique -----

  lemma {:induction false} UniqueFilter(rows: seq<Row>, p: Row -> bool)
    requires UniqueKeys(rows)
    ensures UniqueKeys(Filter(rows, p))
  {
    if rows != [] {
      UniqueFilter(rows[1..], p);
      FilterMembers(rows[1..], p);
      if p(rows[0]) {
        UniqueCons(rows[0], rows[1..], Filter(rows[1..], p));
      }
    }
  }

  lemma UniqueCons(x: Row, rows: seq<Row>, some: seq<Row>)
    requires forall i :: 0 <= i < |rows| ==> !SameKey(x, rows[i])
    requires UniqueKeys(some) && forall r :: r in some ==> r in rows
    ensures UniqueKeys([x] + some)
  {
    forall i | 0 <= i < |some| ensures !SameKey(x, some[i]) {
      assert some[i] in rows;
    }
  }

  function RowKey(): Row -> (Height, nat) { (r: Row) => (r.height, Index(r)) }

  lemma UniqueIsDistinct(rows: seq<Row>)
    ensures UniqueKeys(rows) <==> DistinctBy(rows, RowKey())
  {
    forall i, j | 0 <= i < |rows| && 0 <= j < |rows| ensures SameKey(rows[i], rows[j]) <==> RowKey()(rows[i]) == RowKey()(rows[j]) {
    }
  }

  /** Sorting neither makes keys equal nor tells equal ones apart. */
  lemma UniqueSort(rows: seq<Row>, le: (Row, Row) -> bool)
    ensures UniqueKeys(Sort(rows, le)) <==> UniqueKeys(rows)
  {
    hide UniqueKeys, DistinctBy, RowKey;
    SortMultiset(rows, le);
    UniqueIsDistinct(rows);
    UniqueIsDistinct(Sort(rows, le));
    if DistinctBy(rows, RowKey()) {
      DistinctByPermutation(rows, Sort(rows, le), RowKey());
    }
    if DistinctBy(Sort(rows, le), RowKey()) {
      DistinctByPermutation(Sort(rows, le), rows, RowKey());
    }
  }

  lemma RowOrderTotal(reverse: bool)
    ensures TotalPreorder(RowOrder(reverse))
  {
  }

  // ----- One page after another -----

  lemma NothingPastBefore(all: seq<Row>, k: nat, reverse: bool)
    requires 0 < k <= |all| && SortedBy(all, RowOrder(reverse))
    ensures Filter(all[..k], PastOf(all[k - 1], reverse)) == []
  {
    var p := PastOf(all[k - 1], reverse);
    forall r | r in all[..k] ensures !p(r) {
      var i :| 0 <= i < k && all[i] == r;
      assert i < k - 1 ==> RowOrder(reverse)(all[i], all[k - 1]);
    }
    hide PastOf;
    FilterNone(all[..k], p);
  }

  lemma RestIsPast(all: seq<Row>, k: nat, reverse: bool)
    requires 0 < k <= |all| && SortedBy(all, RowOrder(reverse)) && UniqueKeys(all)
    ensures Filter(all[k..], PastOf(all[k - 1], reverse)) == all[k..]
  {
    var p := PastOf(all[k - 1], reverse);
    forall r | r in all[k..] ensures p(r) {
      var i :| k <= i < |all| && all[i] == r;
      assert RowOrder(reverse)(all[k - 1], all[i]) && !SameKey(all[k - 1], all[i]);
    }
    hide PastOf;
    FilterAll(all[k..], p);
  }

  /** In order and without equal keys, what lies past the element at `k - 1` is the rest. */
  lemma PastIsRest(all: seq<Row>, k: nat, reverse: bool)
    requires 0 < k <= |all| && SortedBy(all, RowOrder(reverse)) && UniqueKeys(all)
    ensures Filter(all, PastOf(all[k - 1], reverse)) == all[k..]
  {
    hide *;
    assert all == all[..k] + all[k..];
    FilterAppend(all[..k], all[k..], PastOf(all[k - 1], reverse));
    NothingPastBefore(all, k, reverse);
    RestIsPast(all, k, reverse);
  }

  /** The filter for a row's next offset selects exactly what lies past the row. */
  lemma NextOffsetSelects(rows: seq<Row>, q: Query, reverse: bool, x: Row)
    requires Asked(q, x) && MIN_INT64 <= x.height <= MAX_INT64 && Index(x) <= MAX_UINT64
    ensures NextOffset(q, x) != "" && BuildFilter(q, NextOffset(q, x), reverse).Ok?
    ensures BuildFilter(q, NextOffset(q, x), reverse).value.reverse == reverse
    ensures Filter(rows, Matches(BuildFilter(q, NextOffset(q, x), reverse).value))
            == Filter(Filter(rows, AskedFor(q)), PastOf(x, reverse))
  {
    if q.ByHeight? {
      ParseFormatDigits(Index(x));
    } else {
      OffsetRoundTrip(x.height, Index(x));
    }
    var f := BuildFilter(q, NextOffset(q, x), reverse).value;
    FilterTwice(rows, AskedFor(q), PastOf(x, reverse), Matches(f));
  }

  /** What follows a page is what lies past its last row in the list of all matching rows. */
  lemma PageFollows(rows: seq<Row>, q: Query, reverse: bool, x: Row)
    requires InRange(rows) && x in Everything(rows, q, reverse)
    ensures
      var f := BuildFilter(q, NextOffset(q, x), reverse);
      f.Ok? && Selected(rows, f.value) == Filter(Everything(rows, q, reverse), PastOf(x, reverse))
  {
    var order, asked := RowOrder(reverse), Filter(rows, AskedFor(q));
    RowOrderTotal(reverse);
    SortMultiset(asked, order);
    SameElements(Everything(rows, q, reverse), asked);
    FilterMembers(rows, AskedFor(q));
    assert AskedFor(q)(x) && x in rows;
    NextOffsetSelects(rows, q, reverse, x);
    FilterSort(asked, order, PastOf(x, reverse));
  }

  lemma FirstPage(rows: seq<Row>, q: Query, reverse: bool)
    ensures BuildFilter(q, "", reverse).Ok?
    ensures Selected(rows, BuildFilter(q, "", reverse).value) == Everything(rows, q, reverse)
  {
    FilterCongruent(rows, Matches(RowFilter(q, FromStart, reverse)), AskedFor(q));
  }

  method Operations(rows: seq<Row>, f: RowFilter, limit: int) returns (page: seq<Row>)
    ensures page == Page(rows, f, limit)
    ensures page == [] <==> forall r :: r in rows ==> !Matches(f)(r)
    ensures
      var matching := |Filter(rows, Matches(f))|;
      |page| == if limit <= 0 then matching
                else if limit > 50 then (if matching < 50 then matching else 50)
                else (if matching < limit then matching else limit)
    ensures page <= Selected(rows, f) && InOrder(page, f.reverse)
    ensures forall r :: r in page ==> r in rows && Matches(f)(r)
  {
    hide Limited, Matches, Filter, Sort, RowOrder, InOrder;
    var found := Filter(rows, Matches(f));
    page := Limited(Sort(found, RowOrder(f.reverse)), limit);
    SelectedMeaning(rows, f);
    SelectedMembers(rows, f);
    PageLength(Selected(rows, f), limit);
    OrderOfPrefix(Selected(rows, f), page, f.reverse);
  }

  lemma PageLength(all: seq<Row>, limit: int)
    ensures Limited(all, limit) <= all && (Limited(all, limit) == [] <==> all == [])
    ensures |Limited(all, limit)| == if limit <= 0 then |all|
                                     else if limit > 50 then (if |all| < 50 then |all| else 50)
                                     else (if |all| < limit then |all| else limit)
  {
  }

  lemma OrderOfPrefix(all: seq<Row>, page: seq<Row>, reverse: bool)
    requires InOrder(all, reverse) && page <= all
    ensures InOrder(page, reverse)
  {
    hide Ordered;
    forall i, j | 0 <= i < j < |page| ensures Ordered(page[i], page[j], reverse) {
      assert Ordered(all[i], all[j], reverse);
    }
  }

  lemma SelectedMembers(rows: seq<Row>, f: RowFilter)
    ensures forall r :: r in Selected(rows, f) <==> r in rows && Matches(f)(r)
    ensures Selected(rows, f) == [] <==> forall r :: r in rows ==> !Matches(f)(r)
  {
    hide Matches, RowOrder;
    var found := Filter(rows, Matches(f));
    FilterMembers(rows, Matches(f));
    SortMultiset(found, RowOrder(f.reverse));
    SameElements(Selected(rows, f), found);
    assert found != [] ==> found[0] in found;
  }

  // ----- Walking -----

  /** The pages of a walk over an ordered list: each is cut off at the limit it is asked with,
      and the next goes on past its last row. */
  function Pages(all: seq<Row>, reverse: bool, limits: nat -> int, n: nat): seq<seq<Row>>
    decreases |all|
  {
    if all == [] then []
    else
      var page := Limited(all, limits(n));
      var past := PastOf(page[|page| - 1], reverse);
      assert page[|page| - 1] in all && !past(page[|page| - 1]);
      FilterShrinks(all, past);
      [page] + Pages(Filter(all, past), reverse, limits, n + 1)
  }

  lemma PagesStep(all: seq<Row>, reverse: bool, limits: nat -> int, n: nat)
    requires all != []
    ensures
      var page := Limited(all, limits(n));
      && page != [] && page == all[..|page|] && page[|page| - 1] in all
      && Pages(all, reverse, limits, n) == [page] + Pages(Filter(all, PastOf(page[|page| - 1], reverse)), reverse, limits, n + 1)
      && |Filter(all, PastOf(page[|page| - 1], reverse))| < |all|
      && Within(page, limits(n))
  {
    var page := Limited(all, limits(n));
    assert page == all[..|page|];
    RestShrinks(all, page[|page| - 1], reverse);
  }

  /** The list that is still to be walked starts out as all matching rows, or is what lies past
      some row. */
  ghost predicate Rest(all: seq<Row>, rest: seq<Row>, reverse: bool) {
    rest == all || exists y :: rest == Filter(all, PastOf(y, reverse))
  }

  lemma RestGoesOn(all: seq<Row>, rest: seq<Row>, reverse: bool, x: Row)
    requires Rest(all, rest, reverse) && x in rest
    ensures x in all && Filter(rest, PastOf(x, reverse)) == Filter(all, PastOf(x, reverse))
    ensures Rest(all, Filter(rest, PastOf(x, reverse)), reverse)
  {
    if rest != all {
      var y :| rest == Filter(all, PastOf(y, reverse));
      FilterMembers(all, PastOf(y, reverse));
      FilterTwice(all, PastOf(y, reverse), PastOf(x, reverse), PastOf(x, reverse));
    }
  }

  /** Following the next offset page by page, each page with a limit of its own, until a page is
      empty. */
  method Walk(rows: seq<Row>, q: Query, reverse: bool, limits: nat -> int) returns (pages: seq<seq<Row>>)
    requires InRange(rows)
    ensures pages == Pages(Everything(rows, q, reverse), reverse, limits, 0)
    ensures forall i :: 0 <= i < |pages| - 1 ==>
              limits(i) > 0 && |pages[i]| == if limits(i) > 50 then 50 else limits(i)
  {
    hide Selected, Everything, BuildFilter, NextOffset, InRange, Rest, Filter, PastOf, Pages, Limited, Matches;
    ghost var all := Everything(rows, q, reverse);
    ghost var rest := all;
    var offset := "";
    pages := [];
    FirstPage(rows, q, reverse);
    WholeIsRest(all, reverse);
    NoPages(reverse, limits);
    while true
      invariant BuildFilter(q, offset, reverse).Ok?
      invariant rest == Selected(rows, BuildFilter(q, offset, reverse).value) && Rest(all, rest, reverse)
      invariant Pages(all, reverse, limits, 0) == pages + Pages(rest, reverse, limits, |pages|)
      decreases |rest|
    {
      var f := BuildFilter(q, offset, reverse);
      var page := Operations(rows, f.value, limits(|pages|));
      assert page == Limited(rest, limits(|pages|));
      if page == [] {
        PageOfRest(rest, limits(|pages|));
        break;
      }
      PageOfRest(rest, limits(|pages|));
      PagesStep(rest, reverse, limits, |pages|);
      ghost var x := page[|page| - 1];
      RestGoesOn(all, rest, reverse, x);
      PageFollows(rows, q, reverse, x);
      assert pages + ([page] + Pages(Filter(rest, PastOf(x, reverse)), reverse, limits, |pages| + 1))
          == pages + [page] + Pages(Filter(rest, PastOf(x, reverse)), reverse, limits, |pages| + 1);
      offset := NextOffset(q, page[|page| - 1]);
      rest := Filter(rest, PastOf(x, reverse));
      pages := pages + [page];
    }
    WalkFull(rows, q, reverse, limits);
  }

  lemma WalkFull(rows: seq<Row>, q: Query, reverse: bool, limits: nat -> int)
    ensures
      var pages := Pages(Everything(rows, q, reverse), reverse, limits, 0);
      forall i :: 0 <= i < |pages| - 1 ==> limits(i) > 0 && |pages[i]| == if limits(i) > 50 then 50 else limits(i)
  {
    RowOrderTotal(reverse);
    SortSorted(Filter(rows, AskedFor(q)), RowOrder(reverse));
    hide Sort, Filter, RowOrder, SortedBy, Pages;
    var all := Everything(rows, q, reverse);
    var pages := Pages(all, reverse, limits, 0);
    forall i | 0 <= i < |pages| - 1 ensures limits(i) > 0 && |pages[i]| == if limits(i) > 50 then 50 else limits(i) {
      PagesFull(all, reverse, limits, 0, i);
      assert 0 + i == i;
    }
  }

  lemma PageOfRest(rest: seq<Row>, limit: int)
    ensures Limited(rest, limit) == [] <==> rest == []
  {
  }

  lemma NoPages(reverse: bool, limits: nat -> int)
    ensures forall n :: Pages([], reverse, limits, n) == []
  {
  }

  lemma WholeIsRest(all: seq<Row>, reverse: bool)
    ensures Rest(all, all, reverse)
  {
  }

  lemma RestShrinks(rest: seq<Row>, x: Row, reverse: bool)
    requires x in rest
    ensures |Filter(rest, PastOf(x, reverse))| < |rest|
  {
    assert !PastOf(x, reverse)(x);
    FilterShrinks(rest, PastOf(x, reverse));
  }

  /** A page is followed by another only if it was cut off at its limit. */
  lemma CutOff(all: seq<Row>, reverse: bool, limits: nat -> int, n: nat)
    requires SortedBy(all, RowOrder(reverse)) && |Pages(all, reverse, limits, n)| > 1
    ensures limits(n) > 0 && |Pages(all, reverse, limits, n)[0]| == if limits(n) > 50 then 50 else limits(n)
  {
    hide *;
    SomePages(all, reverse, limits, n);
    PagesStep(all, reverse, limits, n);
    PageLength(all, limits(n));
    if |Limited(all, limits(n))| == |all| {
      assert all[..|all|] == all;
      NothingPastBefore(all, |all|, reverse);
      NoPages(reverse, limits);
    }
  }

  /** Every page but the last is full. */
  lemma {:induction false} PagesFull(all: seq<Row>, reverse: bool, limits: nat -> int, n: nat, i: nat)
    requires SortedBy(all, RowOrder(reverse)) && i < |Pages(all, reverse, limits, n)| - 1
    ensures limits(n + i) > 0
    ensures |Pages(all, reverse, limits, n)[i]| == if limits(n + i) > 50 then 50 else limits(n + i)
    decreases |all|
  {
    hide *;
    if i == 0 {
      CutOff(all, reverse, limits, n);
    } else {
      SomePages(all, reverse, limits, n);
      PagesStep(all, reverse, limits, n);
      var page := Limited(all, limits(n));
      var past := PastOf(page[|page| - 1], reverse);
      FilterSorted(all, RowOrder(reverse), past);
      assert n + 1 + (i - 1) == n + i;
      PagesFull(Filter(all, past), reverse, limits, n + 1, i - 1);
    }
  }

  lemma SomePages(all: seq<Row>, reverse: bool, limits: nat -> int, n: nat)
    requires Pages(all, reverse, limits, n) != []
    ensures all != []
  {
  }

  ghost predicate Within(page: seq<Row>, limit: int) {
    1 <= |page| && (limit > 0 ==> |page| <= if limit > MAX_LIMIT then MAX_LIMIT else limit)
  }

  /** Every page of a walk holds a row, and no more rows than its limit and the clamp allow. */
  lemma {:induction false} PagesBounded(all: seq<Row>, reverse: bool, limits: nat -> int, n: nat, i: nat)
    requires i < |Pages(all, reverse, limits, n)|
    ensures Within(Pages(all, reverse, limits, n)[i], limits(n + i))
    decreases |all|
  {
    hide *;
    SomePages(all, reverse, limits, n);
    PagesStep(all, reverse, limits, n);
    if i > 0 {
      var page := Limited(all, limits(n));
      var rest := Filter(all, PastOf(page[|page| - 1], reverse));
      assert n + 1 + (i - 1) == n + i;
      PagesBounded(rest, reverse, limits, n + 1, i - 1);
    }
  }

  /** A walk returns rows of the list only. */
  lemma {:induction false} PagesFrom(all: seq<Row>, reverse: bool, limits: nat -> int, n: nat)
    ensures forall r :: r in Flatten(Pages(all, reverse, limits, n)) ==> r in all
    decreases |all|
  {
    if all != [] {
      PagesStep(all, reverse, limits, n);
      hide Pages, Limited, Filter, PastOf;
      var page := Limited(all, limits(n));
      var rest := Filter(all, PastOf(page[|page| - 1], reverse));
      PagesFrom(rest, reverse, limits, n + 1);
      FilterMembers(all, PastOf(page[|page| - 1], reverse));
      FlattenHead(page, Pages(rest, reverse, limits, n + 1));
    }
  }

  lemma FlattenHead(page: seq<Row>, pages: seq<seq<Row>>)
    ensures Flatten([page] + pages) == page + Flatten(pages)
  {
    assert ([page] + pages)[1..] == pages;
  }

  /** Once a page ends with a row, no row of the same key is returned any more. */
  lemma EqualKeysAreSkipped(all: seq<Row>, reverse: bool, limits: nat -> int, n: nat, x: Row, y: Row)
    requires SameKey(x, y)
    ensures y !in Flatten(Pages(Filter(all, PastOf(x, reverse)), reverse, limits, n))
  {
    hide Pages, Flatten;
    FilterMembers(all, PastOf(x, reverse));
    PagesFrom(Filter(all, PastOf(x, reverse)), reverse, limits, n);
    assert !PastOf(x, reverse)(y);
  }

  lemma RestSorted(all: seq<Row>, k: nat, reverse: bool)
    requires SortedBy(all, RowOrder(reverse)) && UniqueKeys(all) && k <= |all|
    ensures SortedBy(all[k..], RowOrder(reverse)) && UniqueKeys(all[k..])
  {
    hide RowOrder, SameKey;
    forall i, j | 0 <= i < j < |all[k..]| ensures RowOrder(reverse)(all[k..][i], all[k..][j]) && !SameKey(all[k..][i], all[k..][j]) {
      assert all[k..][i] == all[k + i] && all[k..][j] == all[k + j];
    }
  }

  lemma {:induction false} PagesComplete(all: seq<Row>, reverse: bool, limits: nat -> int, n: nat)
    requires SortedBy(all, RowOrder(reverse)) && UniqueKeys(all)
    ensures Flatten(Pages(all, reverse, limits, n)) == all
    decreases |all|
  {
    if all != [] {
      PagesStep(all, reverse, limits, n);
      var page := Limited(all, limits(n));
      var k := |page|;
      RestSorted(all, k, reverse);
      hide RowOrder, PastOf, SameKey, Pages, Limited, SortedBy, UniqueKeys, Filter;
      assert all == all[..k] + all[k..];
      PastIsRest(all, k, reverse);
      PagesComplete(all[k..], reverse, limits, n + 1);
      FlattenHead(page, Pages(all[k..], reverse, limits, n + 1));
    }
  }

  function OneByOne(): nat -> int { (n: nat) => 1 }

  /** A walk of single rows never returns a key twice. */
  lemma {:induction false} OneByOneUnique(all: seq<Row>, reverse: bool, n: nat)
    ensures UniqueKeys(Flatten(Pages(all, reverse, OneByOne(), n)))
    decreases |all|
  {
    if all != [] {
      var rest := Filter(all, PastOf(all[0], reverse));
      PagesStep(all, reverse, OneByOne(), n);
      hide Pages, Filter, Index, UniqueKeys, Flatten;
      OneByOneUnique(rest, reverse, n + 1);
      PagesFrom(rest, reverse, OneByOne(), n + 1);
      FilterMembers(all, PastOf(all[0], reverse));
      var tail := Pages(rest, reverse, OneByOne(), n + 1);
      assert Limited(all, OneByOne()(n)) == [all[0]];
      FlattenHead([all[0]], tail);
      forall i | 0 <= i < |Flatten(tail)| ensures !SameKey(all[0], Flatten(tail)[i]) {
        assert Flatten(tail)[i] in rest;
        assert PastOf(all[0], reverse)(Flatten(tail)[i]);
      }
      UniqueCons(all[0], Flatten(tail), Flatten(tail));
    }
  }

  /** Whatever limits are asked with, the pages are all matching rows in order, each once. */
  ghost predicate WalksComplete(rows: seq<Row>, q: Query, reverse: bool) {
    forall limits: nat -> int ::
      Flatten(Pages(Everything(rows, q, reverse), reverse, limits, 0)) == Everything(rows, q, reverse)
  }

  /** Every walk over a query's matches is complete if and only if no two of them have the same
      height and index. */
  lemma WalksCompleteIff(rows: seq<Row>, q: Query, reverse: bool)
    ensures WalksComplete(rows, q, reverse) <==> UniqueKeys(Everything(rows, q, reverse))
  {
    hide Pages, Flatten, UniqueKeys;
    var all := Everything(rows, q, reverse);
    if UniqueKeys(all) {
      RowOrderTotal(reverse);
      SortSorted(Filter(rows, AskedFor(q)), RowOrder(reverse));
      forall limits: nat -> int ensures Flatten(Pages(all, reverse, limits, 0)) == all {
        PagesComplete(all, reverse, limits, 0);
      }
    }
    OneByOneUnique(all, reverse, 0);
  }

  /** With unique keys in the collection the walks of every query are complete. */
  lemma UniqueKeysWalk(rows: seq<Row>, q: Query, reverse: bool)
    requires UniqueKeys(rows)
    ensures WalksComplete(rows, q, reverse)
  {
    hide UniqueKeys, WalksComplete;
    UniqueFilter(rows, AskedFor(q));
    UniqueSort(Filter(rows, AskedFor(q)), RowOrder(reverse));
    WalksCompleteIff(rows, q, reverse);
  }

  ghost predicate OnlyOperations(rows: seq<Row>) { forall r :: r in rows ==> r.body.OperationBody? }

  /** For the query of all operations the keys of the whole collection decide. */
  lemma AllOperationsWalkIff(rows: seq<Row>, reverse: bool)
    requires OnlyOperations(rows)
    ensures WalksComplete(rows, AllOperations, reverse) <==> UniqueKeys(rows)
  {
    hide UniqueKeys, WalksComplete;
    FilterAll(rows, AskedFor(AllOperations));
    UniqueSort(rows, RowOrder(reverse));
    WalksCompleteIff(rows, AllOperations, reverse);
  }

  lemma PairIsLost(a: Row, b: Row, reverse: bool)
    requires SameKey(a, b)
    ensures Flatten(Pages([a, b], reverse, OneByOne(), 0)) == [a]
  {
    assert [a, b][..1] == [a];
    assert Limited([a, b], OneByOne()(0)) == [a];
    forall r | r in [a, b] ensures !PastOf(a, reverse)(r) {
    }
    FilterNone([a, b], PastOf(a, reverse));
    FlattenHead([a], []);
  }

  /** Two operations of one height and index: walked row by row, the second is lost. */
  lemma RowIsLost()
    ensures
      var a, b := Row(3, OperationBody(0, "a", [], true)), Row(3, OperationBody(0, "b", [], true));
      && Everything([a, b], AllOperations, false) == [a, b]
      && Flatten(Pages([a, b], false, OneByOne(), 0)) == [a]
  {
    hide Pages, Flatten, Limited;
    var a, b := Row(3, OperationBody(0, "a", [], true)), Row(3, OperationBody(0, "b", [], true));
    FilterAll([a, b], AskedFor(AllOperations));
    assert [a, b] + [] == [a, b];
    SortPair(a, b, [], RowOrder(false));
    assert RowOrder(false)(a, b);
    PairIsLost(a, b, false);
  }

  // ----- Digested blocks have unique keys -----

  /** The operation rows of a block are numbered from zero. */
  lemma BlockIsNumbered(lib: CurrencyKeys, b: Block)
    requires ModelsOf(lib, b).Some?
    ensures NumberedRows(ModelsOf(lib, b).value.operation, b.height)
  {
  }

  ghost predicate HeightsDiffer(cs: seq<BlockCommit>) {
    forall i, j :: 0 <= i < j < |cs| && cs[i].models.operation != [] && cs[j].models.operation != [] ==>
      cs[i].height != cs[j].height
  }

  ghost function HeightsOf(rows: seq<Row>): set<Height> { set r | r in rows :: r.height }

  ghost function CommitHeights(cs: seq<BlockCommit>): set<Height> {
    set i | 0 <= i < |cs| && cs[i].models.operation != [] :: cs[i].height
  }

  ghost predicate HasFirst(rows: seq<Row>, h: Height) {
    exists x :: x in rows && x.height == h && Index(x) == 0
  }

  /** All rows are operations, and a height that occurs occurs with index 0. */
  ghost predicate HasFirsts(rows: seq<Row>) {
    forall r :: r in rows ==> r.body.OperationBody? && HasFirst(rows, r.height)
  }

  /** Rows of one block: operations, all at `h`, numbered from zero. */
  ghost predicate NumberedRows(more: seq<Row>, h: Height) {
    forall i :: 0 <= i < |more| ==> more[i].body.OperationBody? && more[i].height == h && Index(more[i]) == i
  }

  lemma JoinHeights(rows: seq<Row>, more: seq<Row>, h: Height)
    requires NumberedRows(more, h)
    ensures HeightsOf(rows + more) == HeightsOf(rows) + if more != [] then {h} else {}
  {
    hide Index;
    if more != [] {
      assert more[0] in rows + more && more[0].height == h;
    }
    assert forall r :: r in more ==> r.height == h;
    assert forall r :: r in rows ==> r in rows + more;
  }

  lemma JoinFirsts(rows: seq<Row>, more: seq<Row>, h: Height)
    requires HasFirsts(rows) && NumberedRows(more, h)
    ensures HasFirsts(rows + more)
  {
    forall r | r in rows + more ensures r.body.OperationBody? && HasFirst(rows + more, r.height) {
      if r in rows {
        FirstKept(rows, more, r.height);
      } else {
        var i :| 0 <= i < |more| && more[i] == r;
        assert more[0] in rows + more && Index(more[0]) == 0;
      }
    }
  }

  lemma FirstKept(rows: seq<Row>, more: seq<Row>, h: Height)
    requires HasFirst(rows, h)
    ensures HasFirst(rows + more, h)
  {
    var x :| x in rows && x.height == h && Index(x) == 0;
    assert x in rows + more;
  }

  lemma UniqueJoin(rows: seq<Row>, more: seq<Row>, h: Height)
    requires HasFirsts(rows) && NumberedRows(more, h)
    ensures UniqueKeys(rows + more) <==> UniqueKeys(rows) && (more != [] ==> h !in HeightsOf(rows))
  {
    hide Index;
    if UniqueKeys(rows + more) {
      UniqueParts(rows, more, h);
    }
    if UniqueKeys(rows) && (more != [] ==> h !in HeightsOf(rows)) {
      forall i, j | 0 <= i < j < |rows + more| ensures !SameKey((rows + more)[i], (rows + more)[j]) {
        if i < |rows| <= j {
          assert rows[i] in rows;
          assert more[j - |rows|].height == h;
        }
      }
    }
  }

  lemma UniqueParts(rows: seq<Row>, more: seq<Row>, h: Height)
    requires HasFirsts(rows) && NumberedRows(more, h) && UniqueKeys(rows + more)
    ensures UniqueKeys(rows) && (more != [] ==> h !in HeightsOf(rows))
  {
    assert forall i :: 0 <= i < |rows| ==> (rows + more)[i] == rows[i];
    if more != [] && h in HeightsOf(rows) {
      hide HasFirst;
      var r :| r in rows && r.height == h;
      assert HasFirst(rows, h);
      SharedFirst(rows, more, h);
    }
  }

  lemma SharedFirst(rows: seq<Row>, more: seq<Row>, h: Height)
    requires HasFirst(rows, h) && NumberedRows(more, h) && more != []
    ensures !UniqueKeys(rows + more)
  {
    var x :| x in rows && x.height == h && Index(x) == 0;
    var i :| 0 <= i < |rows| && rows[i] == x;
    assert (rows + more)[i] == x && (rows + more)[|rows|] == more[0];
    assert SameKey((rows + more)[i], (rows + more)[|rows|]);
  }

  lemma DifferStep(before: seq<BlockCommit>, c: BlockCommit)
    ensures HeightsDiffer(before + [c])
            <==> HeightsDiffer(before) && (c.models.operation != [] ==> c.height !in CommitHeights(before))
    ensures CommitHeights(before + [c]) == CommitHeights(before) + if c.models.operation != [] then {c.height} else {}
  {
    var cs := before + [c];
    assert forall i :: 0 <= i < |before| ==> cs[i] == before[i];
    assert cs[|before|] == c;
  }

  ghost predicate NumberedCommits(cs: seq<BlockCommit>) {
    forall i :: 0 <= i < |cs| ==> cs[i].height > PRE_GENESIS_HEIGHT + 1 && NumberedRows(cs[i].models.operation, cs[i].height)
  }

  lemma CommittedLast(s: Store, cs: seq<BlockCommit>)
    requires cs != [] && cs[|cs| - 1].height > PRE_GENESIS_HEIGHT + 1
    ensures CommittedAll(s, cs).operation == CommittedAll(s, cs[..|cs| - 1]).operation + cs[|cs| - 1].models.operation
  {
    CommittedAppends(CommittedAll(s, cs[..|cs| - 1]), cs[|cs| - 1].height, cs[|cs| - 1].models);
  }

  /** Blocks with operations are at heights the collection had no operations of before. */
  ghost predicate NewHeights(rows: seq<Row>, cs: seq<BlockCommit>) {
    forall i :: 0 <= i < |cs| && cs[i].models.operation != [] ==> cs[i].height !in HeightsOf(rows)
  }

  lemma NewHeightsStep(rows: seq<Row>, before: seq<BlockCommit>, c: BlockCommit)
    ensures NewHeights(rows, before + [c])
            <==> NewHeights(rows, before) && (c.models.operation != [] ==> c.height !in HeightsOf(rows))
  {
    hide HeightsOf;
    var cs := before + [c];
    assert forall i :: 0 <= i < |before| ==> cs[i] == before[i];
    assert cs[|before|] == c;
  }

  lemma {:induction false} OperationsCollected(s: Store, cs: seq<BlockCommit>)
    requires HasFirsts(s.operation) && NumberedCommits(cs)
    ensures HasFirsts(CommittedAll(s, cs).operation)
    ensures HeightsOf(CommittedAll(s, cs).operation) == HeightsOf(s.operation) + CommitHeights(cs)
  {
    if cs != [] {
      OperationsCollected(s, cs[..|cs| - 1]);
      CollectedStep(s, cs[..|cs| - 1], cs[|cs| - 1], cs);
    }
  }

  lemma CollectedStep(s: Store, before: seq<BlockCommit>, c: BlockCommit, cs: seq<BlockCommit>)
    requires cs == before + [c] && c.height > PRE_GENESIS_HEIGHT + 1 && NumberedRows(c.models.operation, c.height)
    requires HasFirsts(CommittedAll(s, before).operation)
    requires HeightsOf(CommittedAll(s, before).operation) == HeightsOf(s.operation) + CommitHeights(before)
    ensures HasFirsts(CommittedAll(s, cs).operation)
    ensures HeightsOf(CommittedAll(s, cs).operation) == HeightsOf(s.operation) + CommitHeights(cs)
    ensures UniqueKeys(CommittedAll(s, cs).operation) <==>
              && UniqueKeys(CommittedAll(s, before).operation)
              && (c.models.operation != [] ==> c.height !in CommitHeights(before) && c.height !in HeightsOf(s.operation))
  {
    hide *;
    var rows, more := CommittedAll(s, before).operation, c.models.operation;
    assert cs[..|cs| - 1] == before && cs[|cs| - 1] == c;
    CommittedLast(s, cs);
    JoinFirsts(rows, more, c.height);
    JoinHeights(rows, more, c.height);
    UniqueJoin(rows, more, c.height);
    DifferStep(before, c);
  }

  /** From a collection with unique keys, blocks above genesis leave unique keys if and only if
      no height with operations is committed twice or was there already. */
  lemma {:induction false} OperationKeysUnique(s: Store, cs: seq<BlockCommit>)
    requires UniqueKeys(s.operation) && HasFirsts(s.operation) && NumberedCommits(cs)
    ensures UniqueKeys(CommittedAll(s, cs).operation) <==> HeightsDiffer(cs) && NewHeights(s.operation, cs)
  {
    hide UniqueKeys, HasFirsts, HeightsDiffer, NewHeights, HeightsOf, CommitHeights, Committed, NumberedRows;
    if cs == [] {
      NoCommits(s);
    } else {
      var before, c := cs[..|cs| - 1], cs[|cs| - 1];
      OperationKeysUnique(s, before);
      OperationsCollected(s, before);
      CollectedStep(s, before, c, cs);
      assert cs == before + [c];
      DifferStep(before, c);
      NewHeightsStep(s.operation, before, c);
    }
  }

  lemma NoCommits(s: Store)
    ensures HeightsDiffer([]) && NewHeights(s.operation, []) && CommittedAll(s, []) == s
  {
  }
}
