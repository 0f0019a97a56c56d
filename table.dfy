/** The table component's logic (src/components/Table.tsx): the pagination
    bar's page numbers, the rows of the current page, the page count, and
    the dotted-path cell lookup. Rendering is not modelled. */
module Table {
  import opened Common

  function Max(a: int, b: int): int
  {
    if a >= b then a else b
  }

  function Min(a: int, b: int): int
  {
    if a <= b then a else b
  }

  // ---------------------------------------------------------------------
  // Page numbers

  const MaxVisiblePages: int := 5

  datatype PageItem = PageButton(page: int) | Ellipsis

  /** `startPage` and `endPage`: up to five pages around the current one,
      shifted left when the right end is cut by the last page. */
  function Window(currentPage: int, totalPages: int): (int, int)
  {
    var first := Max(1, currentPage - 2);
    var endPage := Min(totalPages, first + MaxVisiblePages - 1);
    var startPage := if endPage - first + 1 < MaxVisiblePages then Max(1, endPage - MaxVisiblePages + 1) else first;
    (startPage, endPage)
  }

  /** With at least one page the window lies within the pages and holds
      exactly min(5, totalPages) of them, and it holds the current page
      whenever that page exists. */
  lemma WindowSpec(currentPage: int, totalPages: int)
    requires totalPages >= 1
    ensures var (s, e) := Window(currentPage, totalPages);
      && 1 <= s <= e <= totalPages
      && e - s + 1 == Min(MaxVisiblePages, totalPages)
      && (1 <= currentPage <= totalPages ==> s <= currentPage <= e)
  {
  }

  /** The numbered buttons `from..to`. */
  function Buttons(from: int, to: int): seq<PageItem>
  {
    seq(if from <= to then to - from + 1 else 0, i => PageButton(from + i))
  }

  function Leading(startPage: int): seq<PageItem>
  {
    if startPage > 1 then [PageButton(1)] + (if startPage > 2 then [Ellipsis] else []) else []
  }

  function Trailing(endPage: int, totalPages: int): seq<PageItem>
  {
    if endPage < totalPages then (if endPage < totalPages - 1 then [Ellipsis] else []) + [PageButton(totalPages)] else []
  }

  /** The bar's items: page 1 and an ellipsis when the window starts later,
      the window, then an ellipsis and the last page when it ends earlier. */
  function Layout(currentPage: int, totalPages: int): seq<PageItem>
  {
    var (s, e) := Window(currentPage, totalPages);
    Leading(s) + Buttons(s, e) + Trailing(e, totalPages)
  }

  /** `renderPageNumbers`. */
  method RenderPageNumbers(currentPage: int, totalPages: int) returns (pages: seq<PageItem>)
    ensures pages == Layout(currentPage, totalPages)
  {
    pages := [];
    var startPage := Max(1, currentPage - 2);
    var endPage := Min(totalPages, startPage + MaxVisiblePages - 1);
    if endPage - startPage + 1 < MaxVisiblePages {
      startPage := Max(1, endPage - MaxVisiblePages + 1);
    }
    if startPage > 1 {
      pages := pages + [PageButton(1)];
      if startPage > 2 {
        pages := pages + [Ellipsis];
      }
    }
    var i := startPage;
    while i <= endPage
      invariant startPage <= i <= Max(startPage, endPage + 1)
      invariant pages == Leading(startPage) + Buttons(startPage, i - 1)
    {
      pages := pages + [PageButton(i)];
      i := i + 1;
    }
    if endPage < totalPages {
      if endPage < totalPages - 1 {
        pages := pages + [Ellipsis];
      }
      pages := pages + [PageButton(totalPages)];
    }
  }

  /** The bar's item at position `i`, in closed form: the leading part, the
      window, then the trailing part. */
  function ItemAt(s: int, e: int, totalPages: int, i: int): PageItem
  {
    var lead := |Leading(s)|;
    if i < lead then (if i == 0 then PageButton(1) else Ellipsis)
    else if i < lead + (e - s + 1) then PageButton(s + (i - lead))
    else if i == lead + (e - s + 1) + |Trailing(e, totalPages)| - 1 then PageButton(totalPages)
    else Ellipsis
  }

  lemma LayoutAt(currentPage: int, totalPages: int)
    requires totalPages >= 1
    ensures var (s, e) := Window(currentPage, totalPages);
      && |Layout(currentPage, totalPages)| == |Leading(s)| + (e - s + 1) + |Trailing(e, totalPages)|
      && |Leading(s)| == (if s > 2 then 2 else if s == 2 then 1 else 0)
      && |Trailing(e, totalPages)| == (if e < totalPages - 1 then 2 else if e == totalPages - 1 then 1 else 0)
      && forall i :: 0 <= i < |Layout(currentPage, totalPages)| ==>
           Layout(currentPage, totalPages)[i] == ItemAt(s, e, totalPages, i)
  {
    var (s, e) := Window(currentPage, totalPages);
    WindowSpec(currentPage, totalPages);
    var items := Layout(currentPage, totalPages);
    var lead, mid, tail := Leading(s), Buttons(s, e), Trailing(e, totalPages);
    assert items == lead + mid + tail;
    forall i | 0 <= i < |items| ensures items[i] == ItemAt(s, e, totalPages, i) {
      if i < |lead| {
        assert items[i] == lead[i];
      } else if i < |lead| + |mid| {
        assert items[i] == mid[i - |lead|];
      } else {
        assert items[i] == tail[i - |lead| - |mid|];
      }
    }
  }

  /** With at least one page the bar starts with page 1 and ends with the
      last page, shows every page of the window and only existing pages,
      at most nine items, and its page numbers strictly increase. */
  lemma LayoutShape(currentPage: int, totalPages: int)
    requires totalPages >= 1
    ensures var items := Layout(currentPage, totalPages);
      var (s, e) := Window(currentPage, totalPages);
      && 1 <= |items| <= 9
      && items[0] == PageButton(1) && items[|items| - 1] == PageButton(totalPages)
      && (forall p :: s <= p <= e ==> PageButton(p) in items)
      && (1 <= currentPage <= totalPages ==> PageButton(currentPage) in items)
      && (forall i :: 0 <= i < |items| && items[i].PageButton? ==> 1 <= items[i].page <= totalPages)
      && (forall i, j :: 0 <= i < j < |items| && items[i].PageButton? && items[j].PageButton? ==>
            items[i].page < items[j].page)
  {
    var (s, e) := Window(currentPage, totalPages);
    WindowSpec(currentPage, totalPages);
    LayoutAt(currentPage, totalPages);
    var items := Layout(currentPage, totalPages);
    var lead := |Leading(s)|;
    forall p | s <= p <= e ensures PageButton(p) in items {
      assert items[lead + (p - s)] == PageButton(p);
    }
  }

  /** Neighbouring buttons are consecutive pages. */
  lemma LayoutAdjacent(currentPage: int, totalPages: int)
    requires totalPages >= 1
    ensures var items := Layout(currentPage, totalPages);
      forall i :: 0 <= i < |items| - 1 && items[i].PageButton? && items[i + 1].PageButton? ==>
        items[i + 1].page == items[i].page + 1
  {
    WindowSpec(currentPage, totalPages);
    LayoutAt(currentPage, totalPages);
  }

  /** Each ellipsis stands between two page buttons and for at least one
      hidden page; with the lemma above, the bar hides pages exactly where it
      shows an ellipsis. The leading ellipsis appears exactly when the window
      starts after page 2, the trailing one exactly when it ends before the
      second-to-last page. */
  lemma LayoutGaps(currentPage: int, totalPages: int)
    requires totalPages >= 1
    ensures var items := Layout(currentPage, totalPages);
      var (s, e) := Window(currentPage, totalPages);
      && (forall i :: 0 <= i < |items| && items[i].Ellipsis? ==>
            && 0 < i < |items| - 1
            && items[i - 1].PageButton? && items[i + 1].PageButton?
            && items[i + 1].page > items[i - 1].page + 1)
      && ((|items| > 1 && items[1].Ellipsis?) <==> s > 2)
      && ((|items| > 1 && items[|items| - 2].Ellipsis?) <==> e < totalPages - 1)
  {
    WindowSpec(currentPage, totalPages);
    LayoutAt(currentPage, totalPages);
  }

  // ---------------------------------------------------------------------
  // Current page rows and page count

  /** The `pagination` prop: the server already paged the data. */
  datatype PaginationProp = PaginationProp(perPage: int, pages: int)

  const DefaultPerPage: int := 10

  /** `pagination?.perPage || 10`: an absent or zero value means 10. */
  function ItemsPerPage(pagination: Option<PaginationProp>): (n: int)
    ensures n != 0
    ensures pagination.None? ==> n == DefaultPerPage
    ensures pagination.Some? && pagination.value.perPage == 0 ==> n == DefaultPerPage
    ensures pagination.Some? && pagination.value.perPage != 0 ==> n == pagination.value.perPage
  {
    if pagination.Some? && pagination.value.perPage != 0 then pagination.value.perPage else DefaultPerPage
  }

  /** `Math.ceil(a / n)` for a natural `a` and a non-zero `n`. */
  function CeilDiv(a: nat, n: int): int
    requires n != 0
  {
    if n > 0 then (a + n - 1) / n else -(a / -n)
  }

  lemma CeilDivSpec(a: nat, n: int)
    requires n > 0
    ensures (CeilDiv(a, n) - 1) * n < a <= CeilDiv(a, n) * n || (a == 0 && CeilDiv(a, n) == 0)
    ensures CeilDiv(a, n) >= 0 && (CeilDiv(a, n) == 0 <==> a == 0)
  {
    var q := CeilDiv(a, n);
    assert q == (a + n - 1) / n;
    var r := (a + n - 1) % n;
    assert a + n - 1 == q * n + r && 0 <= r < n;
  }

  /** `pagination?.pages || Math.ceil(data.length / itemsPerPage)`. */
  function TotalPages(length: nat, pagination: Option<PaginationProp>): int
  {
    if pagination.Some? && pagination.value.pages != 0 then pagination.value.pages
    else CeilDiv(length, ItemsPerPage(pagination))
  }

  /** Without the prop the page count is the least number of ten-row pages
      that hold every row, and the bar is shown exactly when there are more
      than ten rows. */
  lemma TotalPagesWithoutProp(length: nat)
    ensures TotalPages(length, None) >= 0
    ensures length == 0 <==> TotalPages(length, None) == 0
    ensures length > 0 ==> (TotalPages(length, None) - 1) * DefaultPerPage < length <= TotalPages(length, None) * DefaultPerPage
    ensures ShowsPagination(length, None) <==> length > DefaultPerPage
  {
    CeilDivSpec(length, DefaultPerPage);
  }

  /** `totalPages > 1 &&`: the bar is rendered only with two pages or more. */
  predicate ShowsPagination(length: nat, pagination: Option<PaginationProp>)
  {
    TotalPages(length, pagination) > 1
  }

  /** Array index clamping of `slice`: a negative index counts from the end. */
  function SliceIndex(i: int, length: nat): (k: nat)
    ensures k <= length
    ensures 0 <= i <= length ==> k == i
    ensures i > length ==> k == length
    ensures i < 0 && length + i >= 0 ==> k == length + i
    ensures length + i < 0 ==> k == 0
  {
    if i < 0 then Max(0, length + i) else Min(i, length)
  }

  /** JavaScript `Array.prototype.slice(start, end)`. */
  function JsSlice<T>(s: seq<T>, start: int, end: int): seq<T>
  {
    var a := SliceIndex(start, |s|);
    var b := SliceIndex(end, |s|);
    if a < b then s[a..b] else []
  }

  /** `getCurrentPageData`. */
  function CurrentPageData<T>(data: seq<T>, pagination: Option<PaginationProp>, currentPage: int): seq<T>
  {
    if pagination.Some? then data
    else
      var n := ItemsPerPage(pagination);
      var startIndex := (currentPage - 1) * n;
      JsSlice(data, startIndex, startIndex + n)
  }

  /** With the prop the rows are shown as given; without it page `p` shows
      rows (p-1)·10 up to p·10, cut at the end of the data. */
  lemma CurrentPageDataSpec<T>(data: seq<T>, pagination: Option<PaginationProp>, currentPage: int)
    requires currentPage >= 1
    ensures pagination.Some? ==> CurrentPageData(data, pagination, currentPage) == data
    ensures pagination.None? ==>
      var from := Min((currentPage - 1) * DefaultPerPage, |data|);
      var to := Min(currentPage * DefaultPerPage, |data|);
      CurrentPageData(data, pagination, currentPage) == data[from..to]
  {
  }

  /** Without the prop every row is on exactly one page, which exists: row
      k is row k mod 10 of page k / 10 + 1. */
  lemma EveryRowOnItsPage<T>(data: seq<T>, k: int)
    requires 0 <= k < |data|
    ensures var p := k / DefaultPerPage + 1;
      && 1 <= p <= TotalPages(|data|, None)
      && k % DefaultPerPage < |CurrentPageData(data, None, p)|
      && CurrentPageData(data, None, p)[k % DefaultPerPage] == data[k]
  {
    var p := k / DefaultPerPage + 1;
    TotalPagesWithoutProp(|data|);
    CurrentPageDataSpec(data, None, p);
    assert k == (p - 1) * DefaultPerPage + k % DefaultPerPage;
  }

  /** The component's state: its props and the current page. */
  class TableState<T> {
    var data: seq<T>
    var pagination: Option<PaginationProp>
    var currentPage: int

    /** `useState(1)`. */
    constructor(data: seq<T>, pagination: Option<PaginationProp>)
      ensures this.data == data && this.pagination == pagination && currentPage == 1
    {
      this.data := data;
      this.pagination := pagination;
      currentPage := 1;
    }

    function Pages(): int
      reads this
    {
      TotalPages(|data|, pagination)
    }

    function Rows(): seq<T>
      reads this
    {
      CurrentPageData(data, pagination, currentPage)
    }

    predicate InRange()
      reads this
    {
      1 <= currentPage <= Pages()
    }

    /** The pages the bar lets the user pick: the previous one unless on
        page 1, the next one unless on the last page, and the numbered
        buttons; nothing when the bar is hidden. */
    predicate Offers(page: int)
      reads this
    {
      && ShowsPagination(|data|, pagination)
      && (|| (page == currentPage - 1 && currentPage != 1)
          || (page == currentPage + 1 && currentPage != Pages())
          || PageButton(page) in Layout(currentPage, Pages()))
    }

    /** `onPageChange` / `setCurrentPage` from the bar. */
    method ChangePage(page: int)
      requires Offers(page)
      modifies this
      ensures currentPage == page
      ensures data == old(data) && pagination == old(pagination)
      ensures old(InRange()) ==> InRange()
    {
      if PageButton(page) in Layout(currentPage, Pages()) {
        LayoutShape(currentPage, Pages());
        var i :| 0 <= i < |Layout(currentPage, Pages())| && Layout(currentPage, Pages())[i] == PageButton(page);
      }
      currentPage := page;
    }
  }

  // ---------------------------------------------------------------------
  // Dotted-path lookup

  /** The JavaScript values a cell can hold; `Obj` is any object. */
  datatype JsValue = Undefined | Null | Bool(b: bool) | Num(n: int) | Str(s: string) | Obj(fields: map<string, JsValue>)

  /** `path.split('.')`. */
  function Split(path: string): (parts: seq<string>)
    ensures |parts| >= 1
    ensures forall i :: 0 <= i < |parts| ==> '.' !in parts[i]
  {
    if path == [] then [""]
    else
      var rest := Split(path[1..]);
      if path[0] == '.' then [""] + rest
      else [[path[0]] + rest[0]] + rest[1..]
  }

  function Join(parts: seq<string>): string
    requires |parts| >= 1
  {
    if |parts| == 1 then parts[0] else parts[0] + "." + Join(parts[1..])
  }

  /** Splitting at the dots and joining with dots gives the path back. */
  lemma {:induction false} SplitJoin(path: string)
    ensures Join(Split(path)) == path
  {
    if path != [] {
      SplitJoin(path[1..]);
      var rest := Split(path[1..]);
      if path[0] == '.' {
        assert Split(path)[1..] == rest;
      } else {
        var parts := Split(path);
        if |rest| == 1 {
          assert parts == [[path[0]] + rest[0]];
        } else {
          assert parts[1..] == rest[1..];
          assert Join(rest) == rest[0] + "." + Join(rest[1..]);
        }
        assert path == [path[0]] + path[1..];
      }
    }
  }

  /** One step of the `reduce`: a property of an object, and undefined for
      anything that is not an object (null included). */
  function Step(acc: JsValue, part: string): JsValue
  {
    if acc.Obj? then (if part in acc.fields then acc.fields[part] else Undefined) else Undefined
  }

  /** The `reduce` over the parts. */
  function Walk(v: JsValue, parts: seq<string>): JsValue
    decreases parts
  {
    if parts == [] then v else Walk(Step(v, parts[0]), parts[1..])
  }

  /** `getNestedValue`. */
  function GetNestedValue(obj: JsValue, path: string): JsValue
  {
    Walk(obj, Split(path))
  }

  /** Following a path in two pieces is following it at once. */
  lemma {:induction false} WalkAppend(v: JsValue, a: seq<string>, b: seq<string>)
    ensures Walk(v, a + b) == Walk(Walk(v, a), b)
    decreases a
  {
    if a == [] {
      assert a + b == b;
    } else {
      assert (a + b)[0] == a[0];
      assert (a + b)[1..] == a[1..] + b;
      WalkAppend(Step(v, a[0]), a[1..], b);
    }
  }

  /** Once the value reached is not an object, the rest of the path yields
      undefined. */
  lemma {:induction false} WalkStopsAtNonObject(v: JsValue, parts: seq<string>, i: nat)
    requires i < |parts|
    requires !Walk(v, parts[..i]).Obj?
    ensures Walk(v, parts) == Undefined
  {
    assert parts == parts[..i] + parts[i..];
    WalkAppend(v, parts[..i], parts[i..]);
    UndefinedStaysUndefined(Step(Walk(v, parts[..i]), parts[i]), parts[i + 1..]);
  }

  lemma {:induction false} UndefinedStaysUndefined(v: JsValue, parts: seq<string>)
    requires v == Undefined
    ensures Walk(v, parts) == Undefined
    decreases parts
  {
    if parts != [] {
      UndefinedStaysUndefined(Step(v, parts[0]), parts[1..]);
    }
  }

  /** A path without dots reads one property. */
  lemma NoDotReadsOneProperty(obj: JsValue, key: string)
    requires '.' !in key
    ensures GetNestedValue(obj, key) == Step(obj, key)
  {
    SplitNoDot(key);
    assert Walk(obj, [key]) == Walk(Step(obj, key), []);
  }

  lemma {:induction false} SplitNoDot(key: string)
    requires '.' !in key
    ensures Split(key) == [key]
  {
    if key != [] {
      SplitNoDot(key[1..]);
      assert key == [key[0]] + key[1..];
    }
  }
}
