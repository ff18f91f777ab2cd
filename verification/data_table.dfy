/** The admin table's search filter and pagination
    (src/components/admin/DataTable.tsx). A row is abstracted as its id, the
    string forms of its other field values, and its optional `status`. */
module DataTable {
  import opened Optional
  import opened SeqUtil

  datatype Row = Row(id: string, fields: seq<string>, status: Option<string>)

  /** `Object.values(item)` as strings. */
  function Values(row: Row): (r: seq<string>)
    ensures |r| > 0 && r[0] == row.id
  {
    [row.id] + row.fields + (if row.status.Some? then [row.status.value] else [])
  }

  /** `toLowerCase`, on the ASCII letters. */
  function Lower(s: string): (r: string)
    ensures |r| == |s|
    ensures forall i :: 0 <= i < |s| ==> ('A' <= s[i] <= 'Z' <==> r[i] != s[i])
    ensures forall i :: 0 <= i < |s| ==> !('A' <= r[i] <= 'Z')
    ensures forall i :: 0 <= i < |s| && 'A' <= s[i] <= 'Z' ==> r[i] as int == s[i] as int + 32
    decreases |s|
  {
    if |s| == 0 then ""
    else
      var c := s[0];
      var lc := if 'A' <= c <= 'Z' then (c as int + 32) as char else c;
      [lc] + Lower(s[1..])
  }

  predicate MatchesSearch(row: Row, term: string)
  {
    exists v :: v in Values(row) && Includes(Lower(v), Lower(term))
  }

  /** The status check applies only when a filter is chosen, the parent
      listens for filter changes, and the row has a `status` at all. */
  predicate ExcludedByStatus(row: Row, filterValue: string, hasFilterHandler: bool)
  {
    filterValue != "all" && hasFilterHandler && row.status.Some? && row.status.value != filterValue
  }

  predicate Keep(row: Row, term: string, filterValue: string, hasFilterHandler: bool)
  {
    !ExcludedByStatus(row, filterValue, hasFilterHandler) && MatchesSearch(row, term)
  }

  /** `filteredData`. */
  function Filtered(data: seq<Row>, term: string, filterValue: string, hasFilterHandler: bool): (r: seq<Row>)
    ensures IsSubsequence(r, data)
    ensures forall i :: 0 <= i < |r| ==> Keep(r[i], term, filterValue, hasFilterHandler)
    ensures forall i :: 0 <= i < |data| && Keep(data[i], term, filterValue, hasFilterHandler) ==> data[i] in r
    ensures forall i :: 0 <= i < |r| ==> !ExcludedByStatus(r[i], filterValue, hasFilterHandler)
    ensures forall row :: multiset(r)[row]
              == if Keep(row, term, filterValue, hasFilterHandler) then multiset(data)[row] else 0
  {
    var keep := (row: Row) => Keep(row, term, filterValue, hasFilterHandler);
    FilterIsSubsequence(data, keep);
    FilterKeepsMultiplicity(data, keep);
    Filter(data, keep)
  }

  /** Every row matches the empty search, so with no status filter in force
      the filtered list is the data itself. */
  lemma EmptySearchKeepsEverything(data: seq<Row>, filterValue: string, hasFilterHandler: bool)
    requires filterValue == "all" || !hasFilterHandler
    ensures Filtered(data, "", filterValue, hasFilterHandler) == data
  {
    forall i | 0 <= i < |data|
      ensures Keep(data[i], "", filterValue, hasFilterHandler)
    {
      var v := Values(data[i])[0];
      assert v in Values(data[i]);
      assert [] <= Lower(v);
    }
  }

  /** `Math.ceil(n / size)`. */
  function TotalPages(n: nat, size: int): (r: nat)
    requires size > 0
    ensures n <= r * size
    ensures (r - 1) * size < n || r == 0
    ensures r == 0 <==> n == 0
  {
    (n + size - 1) / size
  }

  /** `filteredData.slice((page - 1) * size, page * size)`. */
  function PageSlice<T>(xs: seq<T>, page: int, size: int): (r: seq<T>)
    requires page >= 1 && size > 0
    ensures |r| <= size
    ensures (page - 1) * size <= |xs| ==> r == xs[(page - 1) * size..Min(page * size, |xs|)]
    ensures (page - 1) * size >= |xs| ==> r == []
  {
    JsSlice(xs, (page - 1) * size, page * size)
  }

  function Min(a: int, b: int): int { if a < b then a else b }

  /** Pages 1..k laid end to end. */
  function Pages<T>(xs: seq<T>, size: int, k: nat): seq<T>
    requires size > 0
  {
    if k == 0 then [] else Pages(xs, size, k - 1) + PageSlice(xs, k, size)
  }

  lemma {:induction false} PagesArePrefix<T>(xs: seq<T>, size: int, k: nat)
    requires size > 0
    ensures Pages(xs, size, k) == xs[..Min(k * size, |xs|)]
  {
    if k > 0 {
      PagesArePrefix(xs, size, k - 1);
      if (k - 1) * size <= |xs| {
        assert xs[..Min((k - 1) * size, |xs|)] + xs[(k - 1) * size..Min(k * size, |xs|)]
               == xs[..Min(k * size, |xs|)];
      }
    }
  }

  /** Concatenating all pages gives back exactly the filtered list. */
  lemma PagesCoverAll<T>(xs: seq<T>, size: int)
    requires size > 0
    ensures Pages(xs, size, TotalPages(|xs|, size)) == xs
  {
    PagesArePrefix(xs, size, TotalPages(|xs|, size));
  }

  /** A page button: a page number or the `'...'` marker. */
  datatype PageItem = Num(n: int) | Ellipsis

  /** `getPageNumbers`: every page when there are at most five, otherwise
      first, last and a window around the current page. */
  function PageNumbers(total: int, current: int): (r: seq<PageItem>)
    ensures total <= 5 ==> |r| == (if total < 0 then 0 else total)
    ensures total > 5 ==> 6 <= |r| <= 7 && r[0] == Num(1) && r[|r| - 1] == Num(total)
    ensures total > 5 ==> (|r| == 7 <==> 3 < current < total - 2)
    ensures total > 5 && current <= 3 ==> r[1] == Num(2)
    ensures total > 5 && current >= total - 2 ==> r[|r| - 2] == Num(total - 1)
  {
    if total <= 5 then seq(if total < 0 then 0 else total, i => Num(i + 1))
    else if current <= 3 then [Num(1), Num(2), Num(3), Num(4), Ellipsis, Num(total)]
    else if current >= total - 2 then [Num(1), Ellipsis, Num(total - 3), Num(total - 2), Num(total - 1), Num(total)]
    else [Num(1), Ellipsis, Num(current - 1), Num(current), Num(current + 1), Ellipsis, Num(total)]
  }

  /** Numbers increase strictly and stay within 1..total; a marker sits only
      between two numbers that are at least two apart, and two adjacent
      numbers are consecutive: the list is 1..total with gaps collapsed. */
  ghost predicate WellFormedPager(r: seq<PageItem>, total: int)
  {
    && (forall i :: 0 <= i < |r| && r[i].Num? ==> 1 <= r[i].n <= total)
    && (forall i, j :: 0 <= i < j < |r| && r[i].Num? && r[j].Num? ==> r[i].n < r[j].n)
    && (forall i :: 0 <= i < |r| && r[i].Ellipsis? ==>
          0 < i < |r| - 1 && r[i - 1].Num? && r[i + 1].Num? && r[i + 1].n - r[i - 1].n >= 2)
    && (forall i :: 0 <= i < |r| - 1 && r[i].Num? && r[i + 1].Num? ==> r[i + 1].n == r[i].n + 1)
  }

  lemma AllPagesWellFormed(total: int)
    requires total <= 5
    ensures WellFormedPager(PageNumbers(total, 1), total)
  {
  }

  lemma HeadWindowWellFormed(total: int)
    requires total > 5
    ensures WellFormedPager([Num(1), Num(2), Num(3), Num(4), Ellipsis, Num(total)], total)
  {
  }

  lemma TailWindowWellFormed(total: int)
    requires total > 5
    ensures WellFormedPager([Num(1), Ellipsis, Num(total - 3), Num(total - 2), Num(total - 1), Num(total)], total)
  {
  }

  lemma MiddleWindowWellFormed(total: int, current: int)
    requires 3 < current < total - 2
    ensures WellFormedPager([Num(1), Ellipsis, Num(current - 1), Num(current), Num(current + 1), Ellipsis, Num(total)], total)
  {
  }

  /** The page list is well formed, is exactly 1..total for at most five
      pages, is at most seven buttons from 1 to total otherwise, and always
      shows the current page. */
  lemma PageNumbersShape(total: int, current: int)
    ensures var r := PageNumbers(total, current);
            && WellFormedPager(r, total)
            && (total <= 5 ==>
                  |r| == (if total < 0 then 0 else total) && forall i :: 0 <= i < |r| ==> r[i] == Num(i + 1))
            && (total > 5 ==> |r| <= 7 && r[0] == Num(1) && r[|r| - 1] == Num(total))
            && (1 <= current <= total ==> Num(current) in r)
  {
    var r := PageNumbers(total, current);
    if total <= 5 {
      AllPagesWellFormed(total);
      assert r == PageNumbers(total, 1);
      if 1 <= current <= total {
        assert r[current - 1] == Num(current);
      }
    } else if current <= 3 {
      HeadWindowWellFormed(total);
      if 1 <= current {
        assert r[current - 1] == Num(current);
      }
    } else if current >= total - 2 {
      TailWindowWellFormed(total);
      if current <= total {
        assert r[current - total + 5] == Num(current);
      }
    } else {
      MiddleWindowWellFormed(total, current);
      assert r[3] == Num(current);
    }
  }

  /** The previous-page button. */
  function Prev(p: int): (r: int)
    ensures r >= 1
    ensures p > 1 ==> r == p - 1
    ensures p <= 1 ==> r == 1
  {
    if 1 > p - 1 then 1 else p - 1
  }

  /** The next-page button. */
  function Next(p: int, total: int): (r: int)
    ensures r <= total
    ensures p < total ==> r == p + 1
    ensures p >= total ==> r == total
  {
    if total < p + 1 then total else p + 1
  }

  /** What can change the current page: the arrows (shown only when there is
      a page), a click on the `index`-th page button, a reset to page 1 on
      a new search, filter or page size, or new `data` from the parent (a
      deletion, say), to which the table does not react. */
  datatype PagerEvent = PrevClick | NextClick | PageClick(index: int) | ResetToFirst | DataChanged

  /** Button `i` of the pager exists and shows a page number (the `'...'`
      markers are disabled). */
  predicate IsPageButton(total: int, p: int, i: int)
  {
    total > 0 && 0 <= i < |PageNumbers(total, p)| && PageNumbers(total, p)[i].Num?
  }

  function Step(p: int, total: int, ev: PagerEvent): (r: int)
    ensures ev.ResetToFirst? ==> r == 1
    ensures ev.DataChanged? ==> r == p
    ensures (ev.PrevClick? || ev.NextClick?) && total <= 0 ==> r == p
    ensures ev.PrevClick? && total > 0 ==> r == (if p > 1 then p - 1 else 1)
    ensures ev.NextClick? && total > 0 ==> r == (if p < total then p + 1 else total)
    ensures ev.PageClick? && IsPageButton(total, p, ev.index) ==> r == PageNumbers(total, p)[ev.index].n
    ensures ev.PageClick? && !IsPageButton(total, p, ev.index) ==> r == p
  {
    match ev
    case PrevClick => if total > 0 then Prev(p) else p
    case NextClick => if total > 0 then Next(p, total) else p
    case PageClick(i) =>
      if IsPageButton(total, p, i) then PageNumbers(total, p)[i].n else p
    case ResetToFirst => 1
    case DataChanged => p
  }

  /** Navigation never leaves 1..total, and the page stays at least 1,
      provided `total` is the page count the page was chosen under. */
  lemma StepStaysInRange(p: int, total: int, ev: PagerEvent)
    ensures p >= 1 ==> Step(p, total, ev) >= 1
    ensures 1 <= p <= total ==> 1 <= Step(p, total, ev) <= total
  {
    PageNumbersShape(total, p);
  }

  /** New data does not move the page: with eleven rows of ten per page on
      page 2, deleting a row leaves one page in total while the table stays
      on page 2 and shows nothing until it is moved. */
  lemma DataChangeCanStrandPage<T>(xs: seq<T>)
    requires |xs| == 10
    ensures TotalPages(|xs|, 10) == 1
    ensures Step(2, TotalPages(|xs|, 10), DataChanged) == 2 > TotalPages(|xs|, 10)
    ensures PageSlice(xs, 2, 10) == []
    ensures Step(2, TotalPages(|xs|, 10), PrevClick) == 1
  {
  }
}
